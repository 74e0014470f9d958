// The durable hand-off of permanent bans: any number of workers that check,
// ban and append, and one flush thread that compacts the client-ban file, then
// snapshots, appends, reloads the IP list and drops the memory records. Every
// action is one section the program runs under a lock, or one file operation.
module Handoff {
  import opened Base
  import opened Text
  import opened Ip
  import opened Policy
  import opened Tracker
  import opened BanList
  import ClientBans

  // The parts of the surroundings that do not change: the configuration, the
  // text form of addresses, which path names which file, and which path
  // `with_extension("tmp")` makes of another.
  datatype World = World(
    auto: AutoBanConfig,
    ipBan: IpBanConfig,
    text: IpText,
    resolve: string -> string,
    sibling: string -> string)
  {
    function Settings(): Settings {
      SettingsOf(auto)
    }

    // The file bans are appended to.
    function BanFile(): string {
      resolve(auto.banListPath)
    }

    // The file the IP ban list is loaded from.
    function ListFile(): string {
      resolve(ipBan.path)
    }

    // The file of client bans, and the one it is rewritten through.
    function ClientFile(): string {
      resolve(auto.clientBanListPath)
    }

    function TempFile(): string {
      resolve(sibling(auto.clientBanListPath))
    }

    predicate KeepsClientBans() {
      auto.clientBanListPath != ""
    }

    // Compaction stays away from this file.
    predicate Spares(file: string) {
      KeepsClientBans() ==> ClientFile() != file && TempFile() != file
    }

    ghost predicate Accepted() {
      && auto.enabled
      && text.Lawful()
      && Accepts(auto, ipBan, (a, b) => resolve(a) == resolve(b))
    }
  }

  datatype Owner = Nobody | Worker(id: nat) | Flusher

  // What one worker is doing: answering a request of an address, or persisting a
  // permanent ban or a client ban. The HTTP worker checks memory first and the
  // loaded list second, the UDP and WebSocket workers the other way round.
  // `listed` remembers whether the address was already under a permanent ban at
  // the first check.
  datatype WorkerPc =
    | Idle
    | Checked(ip: IpAddr, listed: bool)
    | PassedList(ip: IpAddr, listed: bool)
    | Serving(ip: IpAddr, listed: bool, listFirst: bool)
    | WantsLock(ip: IpAddr)
    | HoldsLock(ip: IpAddr)
    | Appending(ip: IpAddr)
    | Marking(ip: IpAddr)
    | WantsExpiry(ip: IpAddr)
    | WantsClientLock(ip: IpAddr, expire: u64)
    | ClientAppending(ip: IpAddr, expire: u64)

  datatype FlushPc =
    | Sleeping
    | Compacting(out: string)
    | Renaming
    | Awake
    | Snapped(banned: set<IpAddr>, pending: set<IpAddr>)
    | Locked(banned: set<IpAddr>, pending: set<IpAddr>)
    | Writing(banned: set<IpAddr>, pending: set<IpAddr>)
    | Recording(banned: set<IpAddr>, pending: set<IpAddr>)
    | Flushed(banned: set<IpAddr>)
    | Reloaded(banned: set<IpAddr>)
    | CleanupDue

  // Book-keeping no program keeps: which addresses were ever banned for good,
  // how often, what the ban file held at first, and whether every write and
  // every process so far ran to its end.
  datatype Ledger = Ledger(
    permanent: set<IpAddr>,
    episodes: map<IpAddr, nat>,
    initial: string,
    exact: bool)

  datatype State = State(
    tracker: TrackerState,
    disk: map<string, string>,
    loaded: BanSet,
    lock: Owner,
    workers: seq<WorkerPc>,
    flusher: FlushPc,
    lastCompaction: Option<nat>,
    ledger: Ledger)

  // How an append ends. It may fail to open the file, fail after some part of
  // its text has reached the file, or succeed. `guarded` says that the last byte
  // of the file could not be read, so that a newline is written to be safe.
  datatype Fate =
    | OpenFailed
    | Torn(kept: nat, guarded: bool)
    | Written(guarded: bool)

  datatype Action =
    | CheckMemory(w: nat, ip: IpAddr, at: nat)
    | CheckList(w: nat)
    | CheckListFirst(w: nat, ip: IpAddr)
    | CheckMemorySecond(w: nat, at: nat)
    | Finish(w: nat)
    | RecordViolation(w: nat, ip: IpAddr, reason: Reason, at: nat)
    | TakeLock(w: nat)
    | CheckUnwritten(w: nat)
    | AppendLine(w: nat, fate: Fate)
    | MarkLine(w: nat)
    | ReadExpiry(w: nat, wall: nat, mono: nat)
    | TakeClientLock(w: nat)
    | AppendClient(w: nat, fate: Fate)
    | WakeUp(readable: bool, nowUnix: u64, at: nat)
    | WriteSibling(fate: Fate)
    | RenameSibling(ok: bool, removed: bool)
    | FlushSnapshot
    | FlushTakeLock
    | FlushRecheck
    | FlushAppend(order: seq<IpAddr>, fate: Fate)
    | FlushRecord
    | FlushReload(ok: bool)
    | FlushRemove
    | FlushCleanup(at: nat)
    | SignalReload(ok: bool)
    | Restart(bans: map<IpAddr, u64>, nowUnix: u64, at: nat)

  // ------------------------------------------------------------ appending

  function Content(disk: map<string, string>, file: string): string {
    if file in disk then disk[file] else ""
  }

  // One line per address, each ended by a newline.
  function LinesFor(order: seq<IpAddr>, text: IpText): string {
    if order == [] then "" else text.show(order[0]) + "\n" + LinesFor(order[1..], text)
  }

  // `append_ip_line` and the write of `flush_to_file`: a newline first when the
  // file does not end in one.
  function AppendText(content: string, order: seq<IpAddr>, guarded: bool, text: IpText): string {
    (if EndsWithNewline(content) && !guarded then "" else "\n") + LinesFor(order, text)
  }

  function AfterAppend(content: string, order: seq<IpAddr>, fate: Fate, text: IpText): string {
    match fate
    case OpenFailed => content
    case Torn(kept, guarded) =>
      var added := AppendText(content, order, guarded, text);
      content + added[..Min(kept, |added|)]
    case Written(guarded) => content + AppendText(content, order, guarded, text)
  }

  function DiskAfter(world: World, disk: map<string, string>, order: seq<IpAddr>, fate: Fate): map<string, string> {
    if fate.OpenFailed? then disk
    else disk[world.BanFile() := AfterAppend(Content(disk, world.BanFile()), order, fate, world.text)]
  }

  // The line of a client ban, appended in the same way.
  function AfterClientAppend(content: string, ip: IpAddr, expire: u64, fate: Fate, text: IpText): string {
    if fate.OpenFailed? then content
    else
      var lead := if EndsWithNewline(content) && !fate.guarded then "" else "\n";
      var added := lead + ClientBans.BanLine(ip, expire, text) + "\n";
      if fate.Written? then content + added else content + added[..Min(fate.kept, |added|)]
  }

  function ClientDiskAfter(
      world: World, disk: map<string, string>, ip: IpAddr, expire: u64, fate: Fate): map<string, string>
  {
    if fate.OpenFailed? then disk
    else
      var file := world.ClientFile();
      disk[file := AfterClientAppend(Content(disk, file), ip, expire, fate, world.text)]
  }

  // ------------------------------------------------------------ worker actions

  function At(s: State, w: nat): Option<WorkerPc> {
    if w < |s.workers| then Some(s.workers[w]) else None
  }

  function Goto(s: State, w: nat, pc: WorkerPc): State
    requires w < |s.workers|
  {
    s.(workers := s.workers[w := pc])
  }

  // The HTTP worker's first security check: the memory records.
  function DoCheckMemory(world: World, s: State, w: nat, ip: IpAddr, at: nat): State {
    match At(s, w)
    case Some(Idle) =>
      if Banned(s.tracker, ip, at) then s
      else Goto(s, w, Checked(ip, ip in s.ledger.permanent))
    case _ => s
  }

  // And its second: the loaded list.
  function DoCheckList(world: World, s: State, w: nat): State
    requires s.loaded.Valid()
  {
    match At(s, w)
    case Some(Checked(ip, listed)) =>
      if world.ipBan.on && IsBanned(s.loaded, ip) then Goto(s, w, Idle)
      else Goto(s, w, Serving(ip, listed, false))
    case _ => s
  }

  // The other order: the loaded list first.
  function DoCheckListFirst(world: World, s: State, w: nat, ip: IpAddr): State
    requires s.loaded.Valid()
  {
    match At(s, w)
    case Some(Idle) =>
      if world.ipBan.on && IsBanned(s.loaded, ip) then s
      else Goto(s, w, PassedList(ip, ip in s.ledger.permanent))
    case _ => s
  }

  function DoCheckMemorySecond(world: World, s: State, w: nat, at: nat): State {
    match At(s, w)
    case Some(PassedList(ip, listed)) =>
      if Banned(s.tracker, ip, at) then Goto(s, w, Idle)
      else Goto(s, w, Serving(ip, listed, true))
    case _ => s
  }

  // The request is answered.
  function DoFinish(s: State, w: nat): State {
    match At(s, w)
    case Some(Serving(_, _, _)) => Goto(s, w, Idle)
    case _ => s
  }

  // The record section of `record_violation`; a permanent ban goes on to
  // `persist_ip`.
  function DoRecordViolation(world: World, s: State, w: nat, ip: IpAddr, reason: Reason, at: nat): State {
    if w < |s.workers| && (s.workers[w].Idle? || s.workers[w].Serving?) then
      var (tracker, banned) := Violate(s.tracker, ip, reason, at, world.Settings());
      if banned && IsPermanent(tracker, ip) then
        Goto(s, w, if world.auto.banListPath == "" then Idle else WantsLock(ip))
        .(tracker := tracker, ledger := Condemn(s.ledger, ip))
      else if banned && reason == ClientBanned && world.KeepsClientBans() then
        Goto(s, w, WantsExpiry(ip)).(tracker := tracker)
      else
        Goto(s, w, Idle).(tracker := tracker)
    else s
  }

  function Condemn(ledger: Ledger, ip: IpAddr): Ledger {
    ledger.(
      permanent := ledger.permanent + {ip},
      episodes := ledger.episodes[ip := Episodes(ledger, ip) + 1])
  }

  function Episodes(ledger: Ledger, ip: IpAddr): nat {
    if ip in ledger.episodes then ledger.episodes[ip] else 0
  }

  function DoTakeLock(world: World, s: State, w: nat): State {
    match At(s, w)
    case Some(WantsLock(ip)) =>
      if s.lock == Nobody then Goto(s, w, HoldsLock(ip)).(lock := Worker(w)) else s
    case _ => s
  }

  function DoCheckUnwritten(world: World, s: State, w: nat): State {
    match At(s, w)
    case Some(HoldsLock(ip)) =>
      if IsUnwritten(s.tracker, ip) then Goto(s, w, Appending(ip))
      else Goto(s, w, Idle).(lock := Nobody)
    case _ => s
  }

  function DoAppendLine(world: World, s: State, w: nat, fate: Fate): State {
    match At(s, w)
    case Some(Appending(ip)) =>
      var disk := DiskAfter(world, s.disk, [ip], fate);
      match fate {
        case OpenFailed => Goto(s, w, Idle).(lock := Nobody)
        case Torn(_, _) => Goto(s, w, Idle).(lock := Nobody, disk := disk, ledger := s.ledger.(exact := false))
        case Written(_) => Goto(s, w, Marking(ip)).(disk := disk)
      }
    case _ => s
  }

  function DoMarkLine(world: World, s: State, w: nat): State {
    match At(s, w)
    case Some(Marking(ip)) =>
      Goto(s, w, Idle).(tracker := MarkWritten(s.tracker, ip), lock := Nobody)
    case _ => s
  }

  // `persist_client_ban`: the end of the ban is read without the write lock.
  function DoReadExpiry(world: World, s: State, w: nat, wall: nat, mono: nat): State {
    match At(s, w)
    case Some(WantsExpiry(ip)) =>
      if ip in s.tracker.records && !s.tracker.records[ip].permanent && s.tracker.records[ip].bannedUntil.Some?
      then
        var expire := ClientBans.ExpiryToWrite(wall, mono, s.tracker.records[ip].bannedUntil.value);
        Goto(s, w, WantsClientLock(ip, expire))
      else Goto(s, w, Idle)
    case _ => s
  }

  function DoTakeClientLock(s: State, w: nat): State {
    match At(s, w)
    case Some(WantsClientLock(ip, expire)) =>
      if s.lock == Nobody then Goto(s, w, ClientAppending(ip, expire)).(lock := Worker(w)) else s
    case _ => s
  }

  function DoAppendClient(world: World, s: State, w: nat, fate: Fate): State {
    match At(s, w)
    case Some(ClientAppending(ip, expire)) =>
      Goto(s, w, Idle).(lock := Nobody, disk := ClientDiskAfter(world, s.disk, ip, expire, fate))
    case _ => s
  }

  // ------------------------------------------------------------ compaction

  // Each round of the flush thread begins with the daily clean-up of the client
  // file, which is due at once after a start. It takes no lock: the file is read
  // here, rewritten beside itself and renamed into place.
  ghost function DoWakeUp(world: World, s: State, readable: bool, nowUnix: u64, at: nat): State {
    if !s.flusher.Sleeping? then s
    else if !Due(s.lastCompaction, at, 86_400) then s.(flusher := Awake)
    else if world.KeepsClientBans() && readable && world.ClientFile() in s.disk then
      var out := ClientBans.Compact(s.disk[world.ClientFile()], nowUnix, world.text);
      s.(flusher := Compacting(out), lastCompaction := Some(at))
    else s.(flusher := Awake, lastCompaction := Some(at))
  }

  function DoWriteSibling(world: World, s: State, fate: Fate): State {
    match s.flusher
    case Compacting(out) =>
      (match fate
       case OpenFailed => s.(flusher := Awake)
       case Torn(kept, _) => s.(flusher := Awake, disk := s.disk[world.TempFile() := out[..Min(kept, |out|)]])
       case Written(_) => s.(flusher := Renaming, disk := s.disk[world.TempFile() := out]))
    case _ => s
  }

  // A file renamed onto itself stays as it is.
  function DoRenameSibling(world: World, s: State, ok: bool, removed: bool): State {
    match s.flusher
    case Renaming =>
      var temp, client := world.TempFile(), world.ClientFile();
      var renamed := ok && temp in s.disk;
      s.(flusher := Awake,
         disk := if renamed && temp == client then s.disk
                 else if renamed then s.disk[client := s.disk[temp]] - {temp}
                 else if removed then s.disk - {temp}
                 else s.disk)
    case _ => s
  }

  // ------------------------------------------------------------ flush actions

  function DoFlushSnapshot(world: World, s: State): State {
    if !s.flusher.Awake? then s
    else
      var banned := PermanentIps(s.tracker);
      var pending := UnwrittenIps(s.tracker);
      if !world.ipBan.on || NothingToFlush(world.Settings()) || banned == {} || world.auto.banListPath == ""
      then s.(flusher := CleanupDue)
      else if pending == {} then s.(flusher := Flushed(banned))
      else s.(flusher := Snapped(banned, pending))
  }

  function DoFlushTakeLock(world: World, s: State): State {
    match s.flusher
    case Snapped(banned, pending) =>
      if s.lock == Nobody then s.(flusher := Locked(banned, pending), lock := Flusher) else s
    case _ => s
  }

  function DoFlushRecheck(world: World, s: State): State {
    match s.flusher
    case Locked(banned, pending) =>
      var still := StillUnwritten(s.tracker, pending);
      if still == {} then s.(flusher := Flushed(banned), lock := Nobody)
      else s.(flusher := Writing(banned, still))
    case _ => s
  }

  // The order in which the snapshot listed the pending addresses is that of a
  // hash map.
  ghost predicate Lists(order: seq<IpAddr>, ips: set<IpAddr>) {
    NoDuplicates(order) && SetOf(order) == ips
  }

  ghost function DoFlushAppend(world: World, s: State, order: seq<IpAddr>, fate: Fate): State {
    match s.flusher
    case Writing(banned, pending) =>
      if !Lists(order, pending) then s
      else
        var disk := DiskAfter(world, s.disk, order, fate);
        (match fate {
          case OpenFailed => s.(flusher := CleanupDue, lock := Nobody)
          case Torn(_, _) =>
            s.(flusher := CleanupDue, lock := Nobody, disk := disk, ledger := s.ledger.(exact := false))
          case Written(_) => s.(flusher := Recording(banned, pending), disk := disk)
        })
    case _ => s
  }

  function DoFlushRecord(world: World, s: State): State {
    match s.flusher
    case Recording(banned, pending) =>
      s.(flusher := Flushed(banned), tracker := MarkAll(s.tracker, pending), lock := Nobody)
    case _ => s
  }

  // Reading the file may fail; then the old list stays.
  function Reload(world: World, s: State, ok: bool): Option<BanSet> {
    if ok && world.ListFile() in s.disk then Some(Load(s.disk[world.ListFile()], world.text)) else None
  }

  function DoFlushReload(world: World, s: State, ok: bool): State {
    match s.flusher
    case Flushed(banned) =>
      (match Reload(world, s, ok)
       case Some(list) => s.(flusher := Reloaded(banned), loaded := list)
       case None => s.(flusher := CleanupDue))
    case _ => s
  }

  function DoFlushRemove(world: World, s: State): State {
    match s.flusher
    case Reloaded(banned) => s.(flusher := CleanupDue, tracker := Remove(s.tracker, banned))
    case _ => s
  }

  function DoFlushCleanup(world: World, s: State, at: nat): State {
    if s.flusher.CleanupDue?
    then s.(flusher := Sleeping, tracker := Cleanup(s.tracker, at, world.Settings()))
    else s
  }

  // ------------------------------------------------------------ the whole process

  // The operator asks for a reload.
  function DoSignalReload(world: World, s: State, ok: bool): State {
    match Reload(world, s, ok)
    case Some(list) => if world.ipBan.on then s.(loaded := list) else s
    case None => s
  }

  // A crash at any point and a new start. Only what the list file holds can
  // still be under a permanent ban.
  function DoRestart(world: World, s: State, bans: map<IpAddr, u64>, nowUnix: u64, at: nat): State {
    if world.ipBan.on && world.ListFile() !in s.disk then s
    else
      var content := Content(s.disk, world.ListFile());
      State(
        Restore(EMPTY_TRACKER, bans, nowUnix, at),
        s.disk,
        if world.ipBan.on then Load(content, world.text) else NO_BANS,
        Nobody,
        seq(|s.workers|, _ => Idle),
        Sleeping,
        None,
        s.ledger.(
          permanent := (set ip | ip in s.ledger.permanent && world.ipBan.on && HasLine(content, ip, world.text)),
          exact := false))
  }

  // One action; an action that is not enabled changes nothing.
  ghost function Step(world: World, s: State, a: Action): State
    requires s.loaded.Valid()
  {
    match a
    case CheckMemory(w, ip, at) => DoCheckMemory(world, s, w, ip, at)
    case CheckList(w) => DoCheckList(world, s, w)
    case CheckListFirst(w, ip) => DoCheckListFirst(world, s, w, ip)
    case CheckMemorySecond(w, at) => DoCheckMemorySecond(world, s, w, at)
    case Finish(w) => DoFinish(s, w)
    case RecordViolation(w, ip, reason, at) => DoRecordViolation(world, s, w, ip, reason, at)
    case TakeLock(w) => DoTakeLock(world, s, w)
    case CheckUnwritten(w) => DoCheckUnwritten(world, s, w)
    case AppendLine(w, fate) => DoAppendLine(world, s, w, fate)
    case MarkLine(w) => DoMarkLine(world, s, w)
    case ReadExpiry(w, wall, mono) => DoReadExpiry(world, s, w, wall, mono)
    case TakeClientLock(w) => DoTakeClientLock(s, w)
    case AppendClient(w, fate) => DoAppendClient(world, s, w, fate)
    case WakeUp(readable, nowUnix, at) => DoWakeUp(world, s, readable, nowUnix, at)
    case WriteSibling(fate) => DoWriteSibling(world, s, fate)
    case RenameSibling(ok, removed) => DoRenameSibling(world, s, ok, removed)
    case FlushSnapshot => DoFlushSnapshot(world, s)
    case FlushTakeLock => DoFlushTakeLock(world, s)
    case FlushRecheck => DoFlushRecheck(world, s)
    case FlushAppend(order, fate) => DoFlushAppend(world, s, order, fate)
    case FlushRecord => DoFlushRecord(world, s)
    case FlushReload(ok) => DoFlushReload(world, s, ok)
    case FlushRemove => DoFlushRemove(world, s)
    case FlushCleanup(at) => DoFlushCleanup(world, s, at)
    case SignalReload(ok) => DoSignalReload(world, s, ok)
    case Restart(bans, nowUnix, at) => DoRestart(world, s, bans, nowUnix, at)
  }

  // A server that has just started on whatever the disk holds.
  ghost predicate Initial(world: World, s: State) {
    && NoPermanents(s.tracker)
    && s.loaded.Valid()
    && s.lock == Nobody
    && (forall w <- s.workers :: w == Idle)
    && s.flusher == Sleeping
    && s.lastCompaction == None
    && s.ledger == Ledger({}, map[], Content(s.disk, world.BanFile()), true)
  }

  ghost predicate NoPermanents(tracker: TrackerState) {
    forall ip <- tracker.records :: !tracker.records[ip].permanent
  }
}
