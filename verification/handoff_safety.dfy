// The hand-off leaves no gap: an address under a permanent ban is at every step
// banned in memory or by the loaded list, and no request of it is served.
module HandoffSafety {
  import opened Base
  import opened Text
  import opened Ip
  import opened Policy
  import opened Tracker
  import opened BanRuns
  import opened BanList
  import opened Handoff

  // ------------------------------------------------------------ files only gain lines

  lemma {:induction false} LinesForRead(order: seq<IpAddr>, ip: IpAddr, text: IpText)
    requires text.Lawful() && ip in order
    ensures text.show(ip) in Lines(LinesFor(order, text))
  {
    var first := text.show(order[0]);
    PrintedIsPlain(text, order[0]);
    LinesSingle(first);
    LinesConcat(first + "\n", LinesFor(order[1..], text));
    if order[0] != ip {
      LinesForRead(order[1..], ip, text);
    }
  }

  lemma AppendIsClean(content: string, order: seq<IpAddr>, fate: Fate, text: IpText) returns (added: string)
    ensures AfterAppend(content, order, fate, text) == content + added && AppendsCleanly(content, added)
    ensures fate.Written? ==> added == AppendText(content, order, fate.guarded, text)
  {
    match fate
    case OpenFailed => added := "";
    case Torn(kept, guarded) =>
      var whole := AppendText(content, order, guarded, text);
      added := whole[..Min(kept, |whole|)];
    case Written(guarded) => added := AppendText(content, order, guarded, text);
  }

  lemma AppendKeepsLines(content: string, order: seq<IpAddr>, fate: Fate, text: IpText, ip: IpAddr)
    requires HasLine(content, ip, text)
    ensures HasLine(AfterAppend(content, order, fate, text), ip, text)
  {
    var added := AppendIsClean(content, order, fate, text);
    LinesKeepPrefix(content, added);
    var line :| line in Lines(content) && Entry(line) == text.show(ip);
    assert line in Lines(content + added);
  }

  lemma LinesAfterWrite(content: string, order: seq<IpAddr>, guarded: bool, text: IpText)
    ensures var ready := if EndsWithNewline(content) && !guarded then content else content + "\n";
      && EndsWithNewline(ready)
      && AfterAppend(content, order, Written(guarded), text) == ready + LinesFor(order, text)
      && Lines(AfterAppend(content, order, Written(guarded), text)) == Lines(ready) + Lines(LinesFor(order, text))
  {
    var lines := LinesFor(order, text);
    if EndsWithNewline(content) && !guarded {
      assert content + ("" + lines) == content + lines;
      LinesConcat(content, lines);
    } else {
      assert content + ("\n" + lines) == (content + "\n") + lines;
      LinesConcat(content + "\n", lines);
    }
  }

  lemma AppendAddsLines(content: string, order: seq<IpAddr>, guarded: bool, text: IpText, ip: IpAddr)
    requires text.Lawful() && ip in order
    ensures HasLine(AfterAppend(content, order, Written(guarded), text), ip, text)
  {
    LinesForRead(order, ip, text);
    PrintedEntry(text, ip);
    LinesAfterWrite(content, order, guarded, text);
    assert text.show(ip) in Lines(AfterAppend(content, order, Written(guarded), text));
  }

  // The file the list is loaded from has a line of the address.
  ghost predicate OnList(world: World, disk: map<string, string>, ip: IpAddr) {
    HasLine(Content(disk, world.ListFile()), ip, world.text)
  }

  ghost predicate KeepsLines(world: World, before: map<string, string>, after: map<string, string>) {
    forall ip | OnList(world, before, ip) :: OnList(world, after, ip)
  }

  lemma DiskGrows(world: World, disk: map<string, string>, order: seq<IpAddr>, fate: Fate)
    requires world.text.Lawful()
    ensures KeepsLines(world, disk, DiskAfter(world, disk, order, fate))
    ensures fate.Written? && world.BanFile() == world.ListFile() ==>
      forall ip <- order :: OnList(world, DiskAfter(world, disk, order, fate), ip)
  {
    var file := world.ListFile();
    if file == world.BanFile() {
      forall ip | OnList(world, disk, ip)
        ensures OnList(world, DiskAfter(world, disk, order, fate), ip)
      {
        AppendKeepsLines(Content(disk, file), order, fate, world.text, ip);
      }
      if fate.Written? {
        forall ip | ip in order
          ensures OnList(world, DiskAfter(world, disk, order, fate), ip)
        {
          AppendAddsLines(Content(disk, file), order, fate.guarded, world.text, ip);
        }
      }
    }
  }

  // ------------------------------------------------------------ the invariant

  // The two conditions under which the flush thread hands bans over; the
  // validator then guarantees that both files are the same.
  predicate HandsOver(world: World) {
    world.ipBan.on && !NothingToFlush(world.Settings()) && world.auto.banListPath != ""
  }

  lemma SameFile(world: World)
    requires world.Accepted() && HandsOver(world)
    ensures world.BanFile() == world.ListFile()
  {
  }

  // An accepted configuration whose client-ban file, and the file it is rewritten
  // through, are not the file of the IP ban list.
  ghost predicate Trusted(world: World) {
    world.Accepted() && world.Spares(world.ListFile())
  }

  // The line of a ban that is handed over is in the file.
  ghost predicate OnFile(world: World, disk: map<string, string>, ip: IpAddr) {
    HandsOver(world) ==> OnList(world, disk, ip)
  }

  // Banned by the loaded list now, and by every list loaded later.
  ghost predicate Listed(world: World, s: State, ip: IpAddr)
    requires s.loaded.Valid()
  {
    && world.ipBan.on
    && OnList(world, s.disk, ip)
    && IsBanned(s.loaded, ip)
  }

  ghost predicate IsPersisted(st: TrackerState, ip: IpAddr) {
    IsPermanent(st, ip) && st.records[ip].persisted
  }

  ghost predicate WrittenInv(world: World, s: State) {
    forall ip | IsPersisted(s.tracker, ip) :: OnFile(world, s.disk, ip)
  }

  predicate InLock(pc: WorkerPc) {
    pc.HoldsLock? || pc.Appending? || pc.Marking? || pc.ClientAppending?
  }

  ghost predicate WorkerOk(world: World, s: State, w: nat)
    requires w < |s.workers| && s.loaded.Valid()
  {
    var pc := s.workers[w];
    && (InLock(pc) ==> s.lock == Worker(w))
    && (pc.Appending? || pc.Marking? ==> IsUnwritten(s.tracker, pc.ip))
    && (pc.Marking? ==> OnFile(world, s.disk, pc.ip))
    && (pc.Checked? && pc.listed ==> Listed(world, s, pc.ip))
    && (pc.Serving? && !pc.listFirst ==> !pc.listed)
    && (pc.WantsExpiry? || pc.WantsClientLock? || pc.ClientAppending? ==> world.KeepsClientBans())
  }

  ghost predicate WorkersInv(world: World, s: State)
    requires s.loaded.Valid()
  {
    forall w | 0 <= w < |s.workers| :: WorkerOk(world, s, w)
  }

  // A snapshot stays accurate: what it found written is written, what it found
  // permanent is still there.
  ghost predicate SnapshotOk(s: State, banned: set<IpAddr>, pending: set<IpAddr>) {
    && pending <= banned
    && (forall ip <- banned :: IsPermanent(s.tracker, ip))
    && (forall ip <- banned :: ip !in pending ==> IsPersisted(s.tracker, ip))
  }

  ghost predicate FlusherInv(world: World, s: State)
    requires s.loaded.Valid()
  {
    match s.flusher
    case Sleeping => true
    case Compacting(_) => world.KeepsClientBans()
    case Renaming => world.KeepsClientBans()
    case Awake => true
    case CleanupDue => true
    case Snapped(banned, pending) => HandsOver(world) && SnapshotOk(s, banned, pending)
    case Locked(banned, pending) =>
      HandsOver(world) && s.lock == Flusher && SnapshotOk(s, banned, pending)
    case Writing(banned, pending) =>
      && HandsOver(world) && s.lock == Flusher && SnapshotOk(s, banned, pending)
      && forall ip <- pending :: IsUnwritten(s.tracker, ip)
    case Recording(banned, pending) =>
      && HandsOver(world) && s.lock == Flusher && SnapshotOk(s, banned, pending)
      && forall ip <- pending :: IsUnwritten(s.tracker, ip) && OnFile(world, s.disk, ip)
    case Flushed(banned) =>
      HandsOver(world) && forall ip <- banned :: IsPersisted(s.tracker, ip)
    case Reloaded(banned) =>
      && HandsOver(world)
      && forall ip <- banned :: IsPersisted(s.tracker, ip) && IsBanned(s.loaded, ip)
  }

  // The claim itself, in the strength that keeps: in memory, or listed for good.
  ghost predicate CoverInv(world: World, s: State)
    requires s.loaded.Valid()
  {
    forall ip <- s.ledger.permanent :: IsPermanent(s.tracker, ip) || Listed(world, s, ip)
  }

  ghost predicate Inv(world: World, s: State) {
    && s.loaded.Valid()
    && WrittenInv(world, s)
    && WorkersInv(world, s)
    && FlusherInv(world, s)
    && CoverInv(world, s)
  }

  lemma InitialInv(world: World, s: State)
    requires Initial(world, s)
    ensures Inv(world, s)
  {
    forall w | 0 <= w < |s.workers|
      ensures WorkerOk(world, s, w)
    {
      assert s.workers[w] in s.workers;
    }
  }

  // ------------------------------------------------------------ record sections

  // What violations and clean-ups do to permanent records: nothing, except that
  // new ones appear, and those are not written yet.
  ghost predicate Evolves(before: TrackerState, after: TrackerState) {
    && (forall ip | IsPermanent(before, ip) :: IsPermanent(after, ip) && after.records[ip] == before.records[ip])
    && (forall ip | IsPermanent(after, ip) && !IsPermanent(before, ip) :: IsUnwritten(after, ip))
  }

  lemma ViolationEvolves(st: TrackerState, ip: IpAddr, reason: Reason, at: nat, settings: Settings)
    ensures Evolves(st, Violate(st, ip, reason, at, settings).0)
  {
    var after := Violate(st, ip, reason, at, settings).0;
    forall other | IsPermanent(st, other)
      ensures IsPermanent(after, other) && after.records[other] == st.records[other]
    {
      ViolationKeepsBanned(st, ip, reason, at, settings, other);
    }
    forall other | IsPermanent(after, other) && !IsPermanent(st, other)
      ensures IsUnwritten(after, other)
    {
      NewPermanent(st, ip, reason, at, settings, other);
    }
  }

  lemma NewPermanent(st: TrackerState, ip: IpAddr, reason: Reason, at: nat, settings: Settings, other: IpAddr)
    requires var after := Violate(st, ip, reason, at, settings).0;
      IsPermanent(after, other) && !IsPermanent(st, other)
    ensures var (after, banned) := Violate(st, ip, reason, at, settings);
      other == ip && banned && IsUnwritten(after, other)
  {
    if Counts(st, ip, at, settings) {
      CountedViolation(st, ip, reason, at, settings);
      if ip in st.records {
        TrackedPermanent(st.records[ip], ip, reason, at, settings);
      }
    } else {
      UncountedViolation(st, ip, reason, at, settings);
    }
  }

  lemma TrackedPermanent(record: IpRecord, ip: IpAddr, reason: Reason, at: nat, settings: Settings)
    requires !record.permanent
    ensures var (after, banned) := ViolateTracked(record, ip, reason, at, settings);
      after.permanent ==> banned && !after.persisted
  {
  }

  lemma CleanupEvolves(st: TrackerState, at: nat, settings: Settings)
    ensures Evolves(st, Cleanup(st, at, settings))
  {
  }

  lemma EvolvesKeeps(world: World, s: State, tracker: TrackerState)
    requires Inv(world, s) && Evolves(s.tracker, tracker)
    ensures Inv(world, s.(tracker := tracker))
  {
    var t := s.(tracker := tracker);
    forall ip | IsPersisted(t.tracker, ip)
      ensures OnFile(world, t.disk, ip)
    {
      assert IsPersisted(s.tracker, ip);
    }
    forall w | 0 <= w < |t.workers|
      ensures WorkerOk(world, t, w)
    {
      assert WorkerOk(world, s, w);
    }
  }

  // ------------------------------------------------------------ appends

  lemma DiskKeeps(world: World, s: State, disk: map<string, string>)
    requires Inv(world, s) && KeepsLines(world, s.disk, disk)
    ensures Inv(world, s.(disk := disk))
  {
    var t := s.(disk := disk);
    assert forall ip :: OnFile(world, s.disk, ip) ==> OnFile(world, disk, ip);
    forall w | 0 <= w < |t.workers|
      ensures WorkerOk(world, t, w)
    {
      assert WorkerOk(world, s, w);
    }
  }

  // A worker moves on without touching anything shared but, perhaps, the lock.
  lemma MoveKeeps(world: World, s: State, w: nat, pc: WorkerPc, lock: Owner)
    requires Inv(world, s) && w < |s.workers|
    requires lock == s.lock || (InLock(s.workers[w]) && lock == Nobody) || (s.lock == Nobody && lock == Worker(w))
    requires WorkerOk(world, Goto(s, w, pc).(lock := lock), w)
    ensures Inv(world, Goto(s, w, pc).(lock := lock))
  {
    var t := Goto(s, w, pc).(lock := lock);
    assert WorkerOk(world, s, w);
    forall v | 0 <= v < |t.workers|
      ensures WorkerOk(world, t, v)
    {
      assert WorkerOk(world, s, v);
    }
  }

  // ------------------------------------------------------------ worker actions

  lemma CheckMemoryKeeps(world: World, s: State, w: nat, ip: IpAddr, at: nat)
    requires Inv(world, s)
    ensures Inv(world, DoCheckMemory(world, s, w, ip, at))
  {
    if At(s, w) == Some(Idle) && !Banned(s.tracker, ip, at) {
      assert !IsPermanent(s.tracker, ip);
      MoveKeeps(world, s, w, Checked(ip, ip in s.ledger.permanent), s.lock);
    }
  }

  lemma CheckListKeeps(world: World, s: State, w: nat)
    requires Inv(world, s)
    ensures Inv(world, DoCheckList(world, s, w))
  {
    if w < |s.workers| && s.workers[w].Checked? {
      assert WorkerOk(world, s, w);
      var ip, listed := s.workers[w].ip, s.workers[w].listed;
      if world.ipBan.on && IsBanned(s.loaded, ip) {
        MoveKeeps(world, s, w, Idle, s.lock);
      } else {
        MoveKeeps(world, s, w, Serving(ip, listed, false), s.lock);
      }
    }
  }

  lemma ListFirstKeeps(world: World, s: State, w: nat, ip: IpAddr, at: nat)
    requires Inv(world, s)
    ensures Inv(world, DoCheckListFirst(world, s, w, ip))
    ensures Inv(world, DoCheckMemorySecond(world, s, w, at))
    ensures Inv(world, DoFinish(s, w))
  {
    if w < |s.workers| {
      var pc := s.workers[w];
      if pc.Idle? {
        MoveKeeps(world, s, w, PassedList(ip, ip in s.ledger.permanent), s.lock);
      } else if pc.PassedList? {
        MoveKeeps(world, s, w, DoCheckMemorySecond(world, s, w, at).workers[w], s.lock);
      } else if pc.Serving? {
        MoveKeeps(world, s, w, Idle, s.lock);
      }
    }
  }

  lemma CondemnKeeps(world: World, s: State, ip: IpAddr)
    requires Inv(world, s) && IsPermanent(s.tracker, ip)
    ensures Inv(world, s.(ledger := Condemn(s.ledger, ip)))
  {
    var t := s.(ledger := Condemn(s.ledger, ip));
    forall w | 0 <= w < |t.workers|
      ensures WorkerOk(world, t, w)
    {
      assert WorkerOk(world, s, w);
    }
  }

  lemma NewBanKeeps(world: World, s: State, w: nat, ip: IpAddr)
    requires Inv(world, s) && IsPermanent(s.tracker, ip)
    requires w < |s.workers| && !InLock(s.workers[w])
    ensures var pc := if world.auto.banListPath == "" then Idle else WantsLock(ip);
      Inv(world, Goto(s, w, pc).(ledger := Condemn(s.ledger, ip)))
  {
    var condemned := s.(ledger := Condemn(s.ledger, ip));
    CondemnKeeps(world, s, ip);
    MoveKeeps(world, condemned, w, if world.auto.banListPath == "" then Idle else WantsLock(ip), s.lock);
  }

  lemma DecisionKeeps(
      world: World, s: State, w: nat, ip: IpAddr, tracker: TrackerState, banned: bool, client: bool)
    requires Inv(world, s) && Evolves(s.tracker, tracker)
    requires w < |s.workers| && !InLock(s.workers[w]) && (client ==> world.KeepsClientBans())
    ensures Inv(world,
      if banned && IsPermanent(tracker, ip) then
        Goto(s, w, if world.auto.banListPath == "" then Idle else WantsLock(ip))
        .(tracker := tracker, ledger := Condemn(s.ledger, ip))
      else
        Goto(s, w, if banned && client then WantsExpiry(ip) else Idle).(tracker := tracker))
  {
    EvolvesKeeps(world, s, tracker);
    if banned && IsPermanent(tracker, ip) {
      NewBanKeeps(world, s.(tracker := tracker), w, ip);
    } else {
      MoveKeeps(world, s.(tracker := tracker), w, if banned && client then WantsExpiry(ip) else Idle, s.lock);
    }
  }

  lemma RecordViolationKeeps(world: World, s: State, w: nat, ip: IpAddr, reason: Reason, at: nat)
    requires Inv(world, s)
    ensures Inv(world, DoRecordViolation(world, s, w, ip, reason, at))
  {
    if w < |s.workers| && (s.workers[w].Idle? || s.workers[w].Serving?) {
      var (tracker, banned) := Violate(s.tracker, ip, reason, at, world.Settings());
      ViolationEvolves(s.tracker, ip, reason, at, world.Settings());
      DecisionKeeps(world, s, w, ip, tracker, banned, reason == ClientBanned && world.KeepsClientBans());
    }
  }

  lemma TakeLockKeeps(world: World, s: State, w: nat)
    requires Inv(world, s)
    ensures Inv(world, DoTakeLock(world, s, w))
  {
    if w < |s.workers| && s.workers[w].WantsLock? && s.lock == Nobody {
      MoveKeeps(world, s, w, HoldsLock(s.workers[w].ip), Worker(w));
    }
  }

  lemma CheckUnwrittenKeeps(world: World, s: State, w: nat)
    requires Inv(world, s)
    ensures Inv(world, DoCheckUnwritten(world, s, w))
  {
    if w < |s.workers| && s.workers[w].HoldsLock? {
      assert WorkerOk(world, s, w);
      if IsUnwritten(s.tracker, s.workers[w].ip) {
        MoveKeeps(world, s, w, Appending(s.workers[w].ip), s.lock);
      } else {
        MoveKeeps(world, s, w, Idle, Nobody);
      }
    }
  }

  lemma LedgerExactKeeps(world: World, s: State)
    requires Inv(world, s)
    ensures Inv(world, s.(ledger := s.ledger.(exact := false)))
  {
    var t := s.(ledger := s.ledger.(exact := false));
    forall w | 0 <= w < |t.workers|
      ensures WorkerOk(world, t, w)
    {
      assert WorkerOk(world, s, w);
    }
  }

  lemma AppendLineKeeps(world: World, s: State, w: nat, fate: Fate)
    requires Inv(world, s) && world.Accepted()
    ensures Inv(world, DoAppendLine(world, s, w, fate))
  {
    if w < |s.workers| && s.workers[w].Appending? {
      assert WorkerOk(world, s, w);
      var ip := s.workers[w].ip;
      var disk := DiskAfter(world, s.disk, [ip], fate);
      DiskGrows(world, s.disk, [ip], fate);
      var t := s.(disk := disk);
      DiskKeeps(world, s, disk);
      match fate
      case OpenFailed => MoveKeeps(world, s, w, Idle, Nobody);
      case Torn(_, _) =>
        LedgerExactKeeps(world, t);
        MoveKeeps(world, t.(ledger := s.ledger.(exact := false)), w, Idle, Nobody);
      case Written(_) =>
        assert ip in [ip];
        assert OnFile(world, t.disk, ip);
        MoveKeeps(world, t, w, Marking(ip), s.lock);
    }
  }

  // Marking one record as written: its line is in the file.
  lemma MarkedKeeps(world: World, s: State, w: nat, ip: IpAddr)
    requires Inv(world, s) && w < |s.workers| && s.workers[w] == Marking(ip)
    ensures Inv(world, Goto(s, w, Idle).(tracker := MarkWritten(s.tracker, ip), lock := Nobody))
  {
    assert WorkerOk(world, s, w);
    var t := Goto(s, w, Idle).(tracker := MarkWritten(s.tracker, ip), lock := Nobody);
    forall other | IsPersisted(t.tracker, other)
      ensures OnFile(world, t.disk, other)
    {
      assert other == ip || IsPersisted(s.tracker, other);
    }
    forall v | 0 <= v < |t.workers|
      ensures WorkerOk(world, t, v)
    {
      assert WorkerOk(world, s, v);
    }
    assert forall other :: IsPermanent(t.tracker, other) <==> IsPermanent(s.tracker, other);
    assert forall other :: IsPersisted(s.tracker, other) ==> IsPersisted(t.tracker, other);
  }

  // ------------------------------------------------------------ flush actions

  lemma FlusherMoveKeeps(world: World, s: State, pc: FlushPc, lock: Owner)
    requires Inv(world, s)
    requires lock == s.lock || (s.lock == Flusher && lock == Nobody) || (s.lock == Nobody && lock == Flusher)
    requires FlusherInv(world, s.(flusher := pc, lock := lock))
    ensures Inv(world, s.(flusher := pc, lock := lock))
  {
    var t := s.(flusher := pc, lock := lock);
    forall w | 0 <= w < |t.workers|
      ensures WorkerOk(world, t, w)
    {
      assert WorkerOk(world, s, w);
    }
  }

  lemma FlushSnapshotKeeps(world: World, s: State)
    requires Inv(world, s)
    ensures Inv(world, DoFlushSnapshot(world, s))
  {
    if s.flusher.Awake? {
      var banned, pending := PermanentIps(s.tracker), UnwrittenIps(s.tracker);
      forall ip | ip in banned && ip !in pending
        ensures IsPersisted(s.tracker, ip)
      {
      }
      assert forall ip <- banned :: IsPermanent(s.tracker, ip);
      FlusherMoveKeeps(world, s, DoFlushSnapshot(world, s).flusher, s.lock);
    }
  }

  lemma FlushTakeLockKeeps(world: World, s: State)
    requires Inv(world, s)
    ensures Inv(world, DoFlushTakeLock(world, s))
  {
    if s.flusher.Snapped? && s.lock == Nobody {
      FlusherMoveKeeps(world, s, Locked(s.flusher.banned, s.flusher.pending), Flusher);
    }
  }

  lemma FlushRecheckKeeps(world: World, s: State)
    requires Inv(world, s)
    ensures Inv(world, DoFlushRecheck(world, s))
  {
    if s.flusher.Locked? {
      var still := StillUnwritten(s.tracker, s.flusher.pending);
      if still == {} {
        forall ip | ip in s.flusher.banned
          ensures IsPersisted(s.tracker, ip)
        {
          assert ip !in still;
        }
        FlusherMoveKeeps(world, s, Flushed(s.flusher.banned), Nobody);
      } else {
        FlusherMoveKeeps(world, s, Writing(s.flusher.banned, still), s.lock);
      }
    }
  }

  lemma FlushAppendKeeps(world: World, s: State, order: seq<IpAddr>, fate: Fate)
    requires Inv(world, s) && world.Accepted()
    ensures Inv(world, DoFlushAppend(world, s, order, fate))
  {
    if s.flusher.Writing? && Lists(order, s.flusher.pending) {
      var disk := DiskAfter(world, s.disk, order, fate);
      DiskGrows(world, s.disk, order, fate);
      var t := s.(disk := disk);
      DiskKeeps(world, s, disk);
      match fate
      case OpenFailed => FlusherMoveKeeps(world, s, CleanupDue, Nobody);
      case Torn(_, _) =>
        LedgerExactKeeps(world, t);
        FlusherMoveKeeps(world, t.(ledger := s.ledger.(exact := false)), CleanupDue, Nobody);
      case Written(_) =>
        forall ip | ip in s.flusher.pending
          ensures OnFile(world, disk, ip)
        {
          assert ip in SetOf(order);
        }
        FlusherMoveKeeps(world, t, Recording(s.flusher.banned, s.flusher.pending), s.lock);
    }
  }

  lemma FlushRecordKeeps(world: World, s: State)
    requires Inv(world, s)
    ensures Inv(world, DoFlushRecord(world, s))
  {
    if s.flusher.Recording? {
      var banned, pending := s.flusher.banned, s.flusher.pending;
      var t := s.(flusher := Flushed(banned), tracker := MarkAll(s.tracker, pending), lock := Nobody);
      assert forall ip :: IsPermanent(t.tracker, ip) <==> IsPermanent(s.tracker, ip);
      assert forall ip :: IsPersisted(s.tracker, ip) ==> IsPersisted(t.tracker, ip);
      forall ip | IsPersisted(t.tracker, ip)
        ensures OnFile(world, t.disk, ip)
      {
        assert ip in pending || IsPersisted(s.tracker, ip);
      }
      forall w | 0 <= w < |t.workers|
        ensures WorkerOk(world, t, w)
      {
        assert WorkerOk(world, s, w);
      }
    }
  }

  // A reload brings in every line there is.
  lemma ReloadKeeps(world: World, s: State, ok: bool)
    requires Inv(world, s) && world.Accepted() && Reload(world, s, ok).Some?
    ensures Inv(world, s.(loaded := Reload(world, s, ok).value))
    ensures forall ip | HasLine(Content(s.disk, world.ListFile()), ip, world.text) ::
      IsBanned(Reload(world, s, ok).value, ip)
  {
    var list := Reload(world, s, ok).value;
    var t := s.(loaded := list);
    forall ip | HasLine(Content(s.disk, world.ListFile()), ip, world.text)
      ensures IsBanned(list, ip)
    {
      LineIsLoaded(Content(s.disk, world.ListFile()), ip, world.text);
    }
    forall w | 0 <= w < |t.workers|
      ensures WorkerOk(world, t, w)
    {
      assert WorkerOk(world, s, w);
    }
    if s.flusher.Reloaded? {
      SameFile(world);
      ReloadedStays(world, s);
    }
  }

  lemma ReloadedStays(world: World, s: State)
    requires Inv(world, s) && s.flusher.Reloaded?
    ensures forall ip <- s.flusher.banned :: OnFile(world, s.disk, ip)
  {
  }

  lemma FlushReloadKeeps(world: World, s: State, ok: bool)
    requires Inv(world, s) && world.Accepted()
    ensures Inv(world, DoFlushReload(world, s, ok))
  {
    if s.flusher.Flushed? {
      if Reload(world, s, ok).Some? {
        var banned := s.flusher.banned;
        var t := s.(loaded := Reload(world, s, ok).value);
        ReloadKeeps(world, s, ok);
        SameFile(world);
        forall ip | ip in banned
          ensures IsPersisted(s.tracker, ip) && IsBanned(t.loaded, ip)
        {
          assert OnFile(world, s.disk, ip);
        }
        FlusherMoveKeeps(world, t, Reloaded(banned), s.lock);
      } else {
        FlusherMoveKeeps(world, s, CleanupDue, s.lock);
      }
    }
  }

  // The records may go: every one of them is listed.
  lemma FlushRemoveKeeps(world: World, s: State)
    requires Inv(world, s) && world.Accepted()
    ensures Inv(world, DoFlushRemove(world, s))
  {
    if s.flusher.Reloaded? {
      var banned := s.flusher.banned;
      var t := DoFlushRemove(world, s);
      SameFile(world);
      forall ip | IsPersisted(t.tracker, ip)
        ensures OnFile(world, t.disk, ip)
      {
        assert IsPersisted(s.tracker, ip);
      }
      forall w | 0 <= w < |t.workers|
        ensures WorkerOk(world, t, w)
      {
        assert WorkerOk(world, s, w);
      }
      forall ip | ip in t.ledger.permanent
        ensures IsPermanent(t.tracker, ip) || Listed(world, t, ip)
      {
        if ip in banned {
          assert OnFile(world, s.disk, ip);
        }
      }
    }
  }

  lemma FlushCleanupKeeps(world: World, s: State, at: nat)
    requires Inv(world, s)
    ensures Inv(world, DoFlushCleanup(world, s, at))
  {
    if s.flusher.CleanupDue? {
      CleanupEvolves(s.tracker, at, world.Settings());
      EvolvesKeeps(world, s, Cleanup(s.tracker, at, world.Settings()));
      FlusherMoveKeeps(world, s.(tracker := Cleanup(s.tracker, at, world.Settings())), Sleeping, s.lock);
    }
  }

  lemma SignalReloadKeeps(world: World, s: State, ok: bool)
    requires Inv(world, s) && world.Accepted()
    ensures Inv(world, DoSignalReload(world, s, ok))
  {
    if Reload(world, s, ok).Some? {
      ReloadKeeps(world, s, ok);
    }
  }

  lemma RestoredNotPermanent(bans: map<IpAddr, u64>, nowUnix: u64, at: nat)
    ensures NoPermanents(Restore(EMPTY_TRACKER, bans, nowUnix, at))
  {
  }

  lemma RestartKeeps(world: World, s: State, bans: map<IpAddr, u64>, nowUnix: u64, at: nat)
    requires Inv(world, s) && world.text.Lawful()
    ensures Inv(world, DoRestart(world, s, bans, nowUnix, at))
  {
    var t := DoRestart(world, s, bans, nowUnix, at);
    if !(world.ipBan.on && world.ListFile() !in s.disk) {
      RestoredNotPermanent(bans, nowUnix, at);
      var content := Content(s.disk, world.ListFile());
      forall ip | ip in t.ledger.permanent
        ensures Listed(world, t, ip)
      {
        LineIsLoaded(content, ip, world.text);
      }
    }
  }

  // ------------------------------------------------------------ client bans and compaction

  lemma ClientBanKeeps(world: World, s: State, w: nat, wall: nat, mono: nat)
    requires Inv(world, s)
    ensures Inv(world, DoReadExpiry(world, s, w, wall, mono))
    ensures Inv(world, DoTakeClientLock(s, w))
  {
    if w < |s.workers| {
      assert WorkerOk(world, s, w);
      var pc := s.workers[w];
      if pc.WantsExpiry? {
        MoveKeeps(world, s, w, DoReadExpiry(world, s, w, wall, mono).workers[w], s.lock);
      } else if pc.WantsClientLock? && s.lock == Nobody {
        MoveKeeps(world, s, w, ClientAppending(pc.ip, pc.expire), Worker(w));
      }
    }
  }

  lemma AppendClientKeeps(world: World, s: State, w: nat, fate: Fate)
    requires Inv(world, s) && world.Spares(world.ListFile())
    ensures Inv(world, DoAppendClient(world, s, w, fate))
  {
    if w < |s.workers| && s.workers[w].ClientAppending? {
      assert WorkerOk(world, s, w);
      var pc := s.workers[w];
      var disk := ClientDiskAfter(world, s.disk, pc.ip, pc.expire, fate);
      DiskKeeps(world, s, disk);
      MoveKeeps(world, s.(disk := disk), w, Idle, Nobody);
    }
  }

  lemma RememberKeeps(world: World, s: State, last: Option<nat>)
    requires Inv(world, s)
    ensures Inv(world, s.(lastCompaction := last))
  {
    var t := s.(lastCompaction := last);
    forall w | 0 <= w < |t.workers|
      ensures WorkerOk(world, t, w)
    {
      assert WorkerOk(world, s, w);
    }
  }

  lemma CompactedKeeps(world: World, s: State, disk: map<string, string>, pc: FlushPc, last: Option<nat>)
    requires Inv(world, s) && KeepsLines(world, s.disk, disk)
    requires FlusherInv(world, s.(disk := disk, flusher := pc))
    ensures Inv(world, s.(disk := disk, flusher := pc, lastCompaction := last))
  {
    DiskKeeps(world, s, disk);
    FlusherMoveKeeps(world, s.(disk := disk), pc, s.lock);
    RememberKeeps(world, s.(disk := disk, flusher := pc), last);
  }

  // Compaction does not touch the file of the list.
  lemma CompactionKeeps(world: World, s: State, a: Action)
    requires Inv(world, s) && world.Spares(world.ListFile())
    requires a.WakeUp? || a.WriteSibling? || a.RenameSibling?
    ensures Inv(world, Step(world, s, a))
  {
    match a {
      case WakeUp(readable, nowUnix, at) =>
        var t := DoWakeUp(world, s, readable, nowUnix, at);
        CompactedKeeps(world, s, s.disk, t.flusher, t.lastCompaction);
      case WriteSibling(fate) =>
        var t := DoWriteSibling(world, s, fate);
        CompactionSpares(world, s, fate, false, false);
        CompactedKeeps(world, s, t.disk, t.flusher, s.lastCompaction);
      case RenameSibling(ok, removed) =>
        var t := DoRenameSibling(world, s, ok, removed);
        CompactionSpares(world, s, OpenFailed, ok, removed);
        CompactedKeeps(world, s, t.disk, t.flusher, s.lastCompaction);
    }
  }

  predicate IsWorkerAction(a: Action) {
    || a.CheckMemory? || a.CheckList? || a.CheckListFirst? || a.CheckMemorySecond? || a.Finish?
    || a.RecordViolation?
    || a.TakeLock? || a.CheckUnwritten? || a.AppendLine? || a.MarkLine?
    || a.ReadExpiry? || a.TakeClientLock? || a.AppendClient?
  }

  lemma WorkerStepKeeps(world: World, s: State, a: Action)
    requires Inv(world, s) && Trusted(world) && IsWorkerAction(a)
    ensures Inv(world, Step(world, s, a))
  {
    match a
    case CheckMemory(w, ip, at) => CheckMemoryKeeps(world, s, w, ip, at);
    case CheckList(w) => CheckListKeeps(world, s, w);
    case CheckListFirst(w, ip) => ListFirstKeeps(world, s, w, ip, 0);
    case CheckMemorySecond(w, at) => ListFirstKeeps(world, s, w, V4(0), at);
    case Finish(w) => ListFirstKeeps(world, s, w, V4(0), 0);
    case RecordViolation(w, ip, reason, at) => RecordViolationKeeps(world, s, w, ip, reason, at);
    case TakeLock(w) => TakeLockKeeps(world, s, w);
    case CheckUnwritten(w) => CheckUnwrittenKeeps(world, s, w);
    case AppendLine(w, fate) => AppendLineKeeps(world, s, w, fate);
    case MarkLine(w) =>
      if w < |s.workers| && s.workers[w].Marking? {
        MarkedKeeps(world, s, w, s.workers[w].ip);
      }
    case ReadExpiry(w, wall, mono) => ClientBanKeeps(world, s, w, wall, mono);
    case TakeClientLock(w) => ClientBanKeeps(world, s, w, 0, 0);
    case AppendClient(w, fate) => AppendClientKeeps(world, s, w, fate);
  }

  lemma FlushWriteKeeps(world: World, s: State, a: Action)
    requires Inv(world, s) && Trusted(world)
    requires a.FlushSnapshot? || a.FlushTakeLock? || a.FlushRecheck? || a.FlushAppend?
    ensures Inv(world, Step(world, s, a))
  {
    match a
    case FlushSnapshot => FlushSnapshotKeeps(world, s);
    case FlushTakeLock => FlushTakeLockKeeps(world, s);
    case FlushRecheck => FlushRecheckKeeps(world, s);
    case FlushAppend(order, fate) => FlushAppendKeeps(world, s, order, fate);
  }

  lemma FlushLoadKeeps(world: World, s: State, a: Action)
    requires Inv(world, s) && Trusted(world)
    requires a.FlushRecord? || a.FlushReload? || a.FlushRemove? || a.FlushCleanup?
    ensures Inv(world, Step(world, s, a))
  {
    match a
    case FlushRecord => FlushRecordKeeps(world, s);
    case FlushReload(ok) => FlushReloadKeeps(world, s, ok);
    case FlushRemove => FlushRemoveKeeps(world, s);
    case FlushCleanup(at) => FlushCleanupKeeps(world, s, at);
  }

  lemma StepKeeps(world: World, s: State, a: Action)
    requires Inv(world, s) && Trusted(world)
    ensures Inv(world, Step(world, s, a))
  {
    if IsWorkerAction(a) {
      WorkerStepKeeps(world, s, a);
    } else if a.FlushSnapshot? || a.FlushTakeLock? || a.FlushRecheck? || a.FlushAppend? {
      FlushWriteKeeps(world, s, a);
    } else if a.FlushRecord? || a.FlushReload? || a.FlushRemove? || a.FlushCleanup? {
      FlushLoadKeeps(world, s, a);
    } else {
      match a
      case SignalReload(ok) => SignalReloadKeeps(world, s, ok);
      case Restart(bans, nowUnix, at) => RestartKeeps(world, s, bans, nowUnix, at);
      case _ => CompactionKeeps(world, s, a);
    }
  }

  // ------------------------------------------------------------ whole runs

  // The states a run of actions goes through, the first one included.
  ghost predicate IsRun(world: World, states: seq<State>, actions: seq<Action>) {
    && |states| == |actions| + 1
    && (forall k | 0 <= k < |actions| ::
          states[k].loaded.Valid() && states[k + 1] == Step(world, states[k], actions[k]))
  }

  lemma {:induction false} RunInv(world: World, states: seq<State>, actions: seq<Action>, k: nat)
    requires Trusted(world) && IsRun(world, states, actions) && Initial(world, states[0])
    requires k < |states|
    ensures Inv(world, states[k])
  {
    if k == 0 {
      InitialInv(world, states[0]);
    } else {
      RunInv(world, states, actions, k - 1);
      StepKeeps(world, states[k - 1], actions[k - 1]);
    }
  }

  // No protection gap. For every accepted configuration whose client-ban file and
  // its sibling are not the list file, and every interleaving of any number of
  // workers with the flush thread, through failed appends, torn appends, failed
  // reloads, compactions of the client bans and restarts, at every step of the run:
  // - an address under a permanent ban is banned in memory or by the loaded list;
  // - no worker that checks memory first and the list second serves a request
  //   whose address was under a permanent ban at the first check.
  lemma NoProtectionGap(world: World, states: seq<State>, actions: seq<Action>, k: nat, now: nat)
    requires Trusted(world) && IsRun(world, states, actions) && Initial(world, states[0])
    requires k < |states|
    ensures states[k].loaded.Valid()
    ensures forall ip <- states[k].ledger.permanent ::
      Banned(states[k].tracker, ip, now) || (world.ipBan.on && IsBanned(states[k].loaded, ip))
    ensures forall pc <- states[k].workers :: pc.Serving? && !pc.listFirst ==> !pc.listed
  {
    RunInv(world, states, actions, k);
    forall ip | ip in states[k].ledger.permanent
      ensures Banned(states[k].tracker, ip, now) || (world.ipBan.on && IsBanned(states[k].loaded, ip))
    {
      assert IsPermanent(states[k].tracker, ip) || Listed(world, states[k], ip);
    }
    forall pc | pc in states[k].workers
      ensures pc.Serving? && !pc.listFirst ==> !pc.listed
    {
      var w :| 0 <= w < |states[k].workers| && states[k].workers[w] == pc;
      assert WorkerOk(world, states[k], w);
    }
  }

  // ------------------------------------------------------------ across restarts

  lemma AppendClientSpares(world: World, s: State, w: nat, fate: Fate)
    requires Inv(world, s) && world.Spares(world.ListFile())
    ensures Content(DoAppendClient(world, s, w, fate).disk, world.ListFile()) == Content(s.disk, world.ListFile())
  {
    if w < |s.workers| {
      assert WorkerOk(world, s, w);
    }
  }

  lemma CompactionSpares(world: World, s: State, fate: Fate, ok: bool, removed: bool)
    requires Inv(world, s) && world.Spares(world.ListFile())
    ensures Content(DoWriteSibling(world, s, fate).disk, world.ListFile()) == Content(s.disk, world.ListFile())
    ensures Content(DoRenameSibling(world, s, ok, removed).disk, world.ListFile())
      == Content(s.disk, world.ListFile())
  {
  }

  predicate WritesFiles(a: Action) {
    a.AppendLine? || a.FlushAppend? || a.AppendClient? || a.WriteSibling? || a.RenameSibling?
  }

  lemma OthersWriteNothing(world: World, s: State, a: Action)
    requires s.loaded.Valid() && !WritesFiles(a)
    ensures Step(world, s, a).disk == s.disk
  {
  }

  // Only the appends of the hand-off change the file the list is loaded from.
  lemma ListFileStays(world: World, s: State, a: Action)
    requires Inv(world, s) && world.Spares(world.ListFile()) && !a.AppendLine? && !a.FlushAppend?
    ensures Content(Step(world, s, a).disk, world.ListFile()) == Content(s.disk, world.ListFile())
  {
    match a
    case AppendClient(w, fate) => AppendClientSpares(world, s, w, fate);
    case WriteSibling(fate) => CompactionSpares(world, s, fate, false, false);
    case RenameSibling(ok, removed) => CompactionSpares(world, s, OpenFailed, ok, removed);
    case _ => OthersWriteNothing(world, s, a);
  }

  lemma AppendLineGrows(world: World, s: State, w: nat, fate: Fate)
    requires world.text.Lawful()
    ensures KeepsLines(world, s.disk, DoAppendLine(world, s, w, fate).disk)
  {
    if w < |s.workers| && s.workers[w].Appending? {
      DiskGrows(world, s.disk, [s.workers[w].ip], fate);
    }
  }

  lemma StepKeepsLine(world: World, s: State, a: Action, ip: IpAddr)
    requires Inv(world, s) && Trusted(world) && OnList(world, s.disk, ip)
    ensures OnList(world, Step(world, s, a).disk, ip)
  {
    if a.AppendLine? {
      AppendLineGrows(world, s, a.w, a.fate);
    } else if a.FlushAppend? {
      DiskGrows(world, s.disk, a.order, a.fate);
    } else {
      ListFileStays(world, s, a);
    }
  }

  lemma StepKeepsCondemned(world: World, s: State, a: Action, ip: IpAddr)
    requires s.loaded.Valid() && ip in s.ledger.permanent
    requires a.Restart? ==> world.ipBan.on && OnList(world, s.disk, ip)
    ensures ip in Step(world, s, a).ledger.permanent
  {
  }

  // A crash forgets the bans that were never written. One whose line is in the
  // list file outlives every later crash: at every later step, through any
  // restarts, failed reloads and torn writes, the address is still under its ban
  // and protected, in memory or by the loaded list.
  lemma {:induction false} WrittenSurvivesRestarts(
      world: World, states: seq<State>, actions: seq<Action>, j: nat, k: nat, ip: IpAddr, now: nat)
    requires Trusted(world) && IsRun(world, states, actions) && Initial(world, states[0])
    requires world.ipBan.on
    requires j <= k < |states| && ip in states[j].ledger.permanent && OnList(world, states[j].disk, ip)
    ensures OnList(world, states[k].disk, ip) && ip in states[k].ledger.permanent
    ensures states[k].loaded.Valid()
    ensures Banned(states[k].tracker, ip, now) || IsBanned(states[k].loaded, ip)
  {
    if j < k {
      WrittenSurvivesRestarts(world, states, actions, j, k - 1, ip, now);
      RunInv(world, states, actions, k - 1);
      StepKeepsLine(world, states[k - 1], actions[k - 1], ip);
      StepKeepsCondemned(world, states[k - 1], actions[k - 1], ip);
    }
    NoProtectionGap(world, states, actions, k, now);
  }

  // ------------------------------------------------------------ why the validator insists

  // One action more in front of a run.
  lemma PrependRun(world: World, s: State, a: Action, states: seq<State>, actions: seq<Action>)
    requires IsRun(world, states, actions) && s.loaded.Valid() && Step(world, s, a) == states[0]
    ensures IsRun(world, [s] + states, [a] + actions)
  {
    var longer, steps := [s] + states, [a] + actions;
    forall k | 0 <= k < |steps|
      ensures longer[k].loaded.Valid() && longer[k + 1] == Step(world, longer[k], steps[k])
    {
      if k > 0 {
        assert longer[k] == states[k - 1] && longer[k + 1] == states[k] && steps[k] == actions[k - 1];
      }
    }
  }

  lemma JoinRuns(world: World, before: seq<State>, first: seq<Action>, after: seq<State>, second: seq<Action>)
    requires IsRun(world, before, first) && IsRun(world, after, second) && before[|first|] == after[0]
    ensures IsRun(world, before + after[1..], first + second)
  {
    var states, actions := before + after[1..], first + second;
    forall k | 0 <= k < |actions|
      ensures states[k].loaded.Valid() && states[k + 1] == Step(world, states[k], actions[k])
    {
      if k >= |first| {
        assert states[k] == after[k - |first|] && actions[k] == second[k - |first|];
      } else {
        assert states[k] == before[k] && states[k + 1] == before[k + 1] && actions[k] == first[k];
      }
    }
  }

  // The state after a permanent ban, before any of it is written.
  ghost function Condemned(s: State, tracker: TrackerState, ip: IpAddr): State {
    s.(tracker := tracker, workers := [WantsLock(ip)], ledger := Condemn(s.ledger, ip))
  }

  // A configuration the validator would accept, but for bans that go to a file
  // other than the one that is reloaded.
  ghost predicate OnlyFilesDiffer(world: World) {
    && HandsOver(world)
    && world.text.Lawful()
    && world.auto.banDurationSecs == 0 && world.auto.immediateBanSecs == 0
    && world.BanFile() != world.ListFile()
  }

  lemma FirstBan(world: World, s: State, ip: IpAddr) returns (tracker: TrackerState)
    requires OnlyFilesDiffer(world) && s.tracker == EMPTY_TRACKER && s.workers == [Idle]
    requires s.loaded.Valid()
    ensures IsUnwritten(tracker, ip) && PermanentIps(tracker) == {ip} == UnwrittenIps(tracker)
    ensures Step(world, s, RecordViolation(0, ip, SqlInjection, 0)) == Condemned(s, tracker, ip)
  {
    var settings := world.Settings();
    tracker := Violate(s.tracker, ip, SqlInjection, 0, settings).0;
    CountedViolation(s.tracker, ip, SqlInjection, 0, settings);
    assert tracker.records.Keys == {ip};
    assert tracker.records[ip].permanent && !tracker.records[ip].persisted;
    assert s.workers[0 := WantsLock(ip)] == [WantsLock(ip)];
  }

  // With two different files the hand-off opens a gap: one violation and one
  // undisturbed flush later the address is banned nowhere.
  lemma DifferentFilesLeaveGap(world: World, s: State, ip: IpAddr, now: nat)
      returns (states: seq<State>, actions: seq<Action>)
    requires OnlyFilesDiffer(world)
    requires Initial(world, s) && s.tracker == EMPTY_TRACKER && s.workers == [Idle]
    requires world.ListFile() in s.disk && s.disk[world.ListFile()] == ""
    ensures IsRun(world, states, actions) && states[0] == s
    ensures var end := states[|actions|];
      && end.loaded.Valid() && ip in end.ledger.permanent
      && !Banned(end.tracker, ip, now) && !IsBanned(end.loaded, ip)
  {
    var tracker := FirstBan(world, s, ip);
    var s1 := Condemned(s, tracker, ip);
    states, actions := WakeIntoGap(world, s1, ip);
    PrependRun(world, s, RecordViolation(0, ip, SqlInjection, 0), states, actions);
    states, actions := [s] + states, [RecordViolation(0, ip, SqlInjection, 0)] + actions;
  }

  // Nothing is left of the ban but the record that there was one.
  ghost predicate InGap(end: State, ip: IpAddr, ledger: Ledger) {
    end.loaded == NO_BANS && end.ledger == ledger && ip !in end.tracker.records
  }

  // The first round of the flush thread; the client file cannot be read.
  lemma WakeIntoGap(world: World, s1: State, ip: IpAddr) returns (states: seq<State>, actions: seq<Action>)
    requires OnlyFilesDiffer(world) && s1.loaded.Valid()
    requires s1.flusher == Sleeping && s1.lastCompaction == None && s1.lock == Nobody
    requires PermanentIps(s1.tracker) == {ip} == UnwrittenIps(s1.tracker)
    requires world.ListFile() in s1.disk && s1.disk[world.ListFile()] == ""
    ensures IsRun(world, states, actions) && states[0] == s1 && InGap(states[|actions|], ip, s1.ledger)
  {
    var awake := s1.(flusher := Awake, lastCompaction := Some(0));
    assert DoWakeUp(world, s1, false, 0, 0) == awake;
    states, actions := SnapIntoGap(world, awake, ip);
    PrependRun(world, s1, WakeUp(false, 0, 0), states, actions);
    states, actions := [s1] + states, [WakeUp(false, 0, 0)] + actions;
  }

  lemma SnapIntoGap(world: World, s1: State, ip: IpAddr) returns (states: seq<State>, actions: seq<Action>)
    requires OnlyFilesDiffer(world) && s1.loaded.Valid()
    requires s1.flusher == Awake && s1.lock == Nobody
    requires PermanentIps(s1.tracker) == {ip} == UnwrittenIps(s1.tracker)
    requires world.ListFile() in s1.disk && s1.disk[world.ListFile()] == ""
    ensures IsRun(world, states, actions) && states[0] == s1 && InGap(states[|actions|], ip, s1.ledger)
  {
    var s2 := s1.(flusher := Snapped({ip}, {ip}));
    assert DoFlushSnapshot(world, s1) == s2;
    states, actions := LockIntoGap(world, s2, ip);
    PrependRun(world, s1, FlushSnapshot, states, actions);
    states, actions := [s1] + states, [FlushSnapshot] + actions;
  }

  lemma LockIntoGap(world: World, s2: State, ip: IpAddr) returns (states: seq<State>, actions: seq<Action>)
    requires OnlyFilesDiffer(world) && s2.loaded.Valid()
    requires s2.flusher == Snapped({ip}, {ip}) && s2.lock == Nobody && ip in UnwrittenIps(s2.tracker)
    requires world.ListFile() in s2.disk && s2.disk[world.ListFile()] == ""
    ensures IsRun(world, states, actions) && states[0] == s2 && InGap(states[|actions|], ip, s2.ledger)
  {
    var s3 := s2.(flusher := Locked({ip}, {ip}), lock := Flusher);
    assert DoFlushTakeLock(world, s2) == s3;
    states, actions := RecheckIntoGap(world, s3, ip);
    PrependRun(world, s2, FlushTakeLock, states, actions);
    states, actions := [s2] + states, [FlushTakeLock] + actions;
  }

  lemma RecheckIntoGap(world: World, s3: State, ip: IpAddr) returns (states: seq<State>, actions: seq<Action>)
    requires OnlyFilesDiffer(world) && s3.loaded.Valid()
    requires s3.flusher == Locked({ip}, {ip}) && ip in UnwrittenIps(s3.tracker)
    requires world.ListFile() in s3.disk && s3.disk[world.ListFile()] == ""
    ensures IsRun(world, states, actions) && states[0] == s3 && InGap(states[|actions|], ip, s3.ledger)
  {
    assert StillUnwritten(s3.tracker, {ip}) == {ip};
    var s4 := s3.(flusher := Writing({ip}, {ip}));
    assert DoFlushRecheck(world, s3) == s4;
    states, actions := WriteIntoGap(world, s4, ip);
    PrependRun(world, s3, FlushRecheck, states, actions);
    states, actions := [s3] + states, [FlushRecheck] + actions;
  }

  lemma WriteIntoGap(world: World, s4: State, ip: IpAddr) returns (states: seq<State>, actions: seq<Action>)
    requires OnlyFilesDiffer(world) && s4.loaded.Valid()
    requires s4.flusher == Writing({ip}, {ip})
    requires world.ListFile() in s4.disk && s4.disk[world.ListFile()] == ""
    ensures IsRun(world, states, actions) && states[0] == s4 && InGap(states[|actions|], ip, s4.ledger)
  {
    assert Lists([ip], {ip});
    var disk := DiskAfter(world, s4.disk, [ip], Written(false));
    var s5 := s4.(flusher := Recording({ip}, {ip}), disk := disk);
    assert DoFlushAppend(world, s4, [ip], Written(false)) == s5;
    states, actions := RecordIntoGap(world, s5, ip);
    PrependRun(world, s4, FlushAppend([ip], Written(false)), states, actions);
    states, actions := [s4] + states, [FlushAppend([ip], Written(false))] + actions;
  }

  lemma RecordIntoGap(world: World, s5: State, ip: IpAddr) returns (states: seq<State>, actions: seq<Action>)
    requires s5.loaded.Valid() && s5.flusher == Recording({ip}, {ip})
    requires world.ListFile() in s5.disk && s5.disk[world.ListFile()] == ""
    ensures IsRun(world, states, actions) && states[0] == s5 && InGap(states[|actions|], ip, s5.ledger)
  {
    var s6 := s5.(flusher := Flushed({ip}), tracker := MarkAll(s5.tracker, {ip}), lock := Nobody);
    assert DoFlushRecord(world, s5) == s6;
    states, actions := ReloadIntoGap(world, s6, ip);
    PrependRun(world, s5, FlushRecord, states, actions);
    states, actions := [s5] + states, [FlushRecord] + actions;
  }

  lemma ReloadIntoGap(world: World, s6: State, ip: IpAddr) returns (states: seq<State>, actions: seq<Action>)
    requires s6.loaded.Valid() && s6.flusher == Flushed({ip})
    requires world.ListFile() in s6.disk && s6.disk[world.ListFile()] == ""
    ensures IsRun(world, states, actions) && states[0] == s6 && InGap(states[|actions|], ip, s6.ledger)
  {
    assert Load("", world.text) == NO_BANS;
    var s7 := s6.(flusher := Reloaded({ip}), loaded := NO_BANS);
    assert DoFlushReload(world, s6, true) == s7;
    states, actions := RemoveIntoGap(world, s7, ip);
    PrependRun(world, s6, FlushReload(true), states, actions);
    states, actions := [s6] + states, [FlushReload(true)] + actions;
  }

  lemma RemoveIntoGap(world: World, s7: State, ip: IpAddr) returns (states: seq<State>, actions: seq<Action>)
    requires s7.loaded == NO_BANS && s7.flusher == Reloaded({ip})
    ensures IsRun(world, states, actions) && states[0] == s7 && InGap(states[|actions|], ip, s7.ledger)
  {
    var s8 := s7.(flusher := CleanupDue, tracker := Remove(s7.tracker, {ip}));
    assert DoFlushRemove(world, s7) == s8;
    states, actions := [s8], [];
    PrependRun(world, s7, FlushRemove, states, actions);
    states, actions := [s7] + states, [FlushRemove] + actions;
  }
}
