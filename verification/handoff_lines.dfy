// Append at most once: between the workers and the flush thread, every episode
// of a permanent ban puts exactly one line into the ban file.
module HandoffLines {
  import opened Base
  import opened Text
  import opened Ip
  import opened Policy
  import opened Tracker
  import opened BanRuns
  import opened BanList
  import opened Handoff
  import opened HandoffSafety

  // ------------------------------------------------------------ counting lines

  function CountEntry(lines: seq<string>, entry: string): nat {
    if lines == [] then 0
    else (if Entry(lines[0]) == entry then 1 else 0) + CountEntry(lines[1..], entry)
  }

  // How many lines of a file name an address.
  function LineCount(content: string, ip: IpAddr, text: IpText): nat {
    CountEntry(Lines(content), text.show(ip))
  }

  lemma {:induction false} CountConcat(a: seq<string>, b: seq<string>, entry: string)
    ensures CountEntry(a + b, entry) == CountEntry(a, entry) + CountEntry(b, entry)
  {
    if a == [] {
      assert a + b == b;
    } else {
      assert (a + b)[1..] == a[1..] + b;
      CountConcat(a[1..], b, entry);
    }
  }

  lemma {:induction false} CountLinesFor(order: seq<IpAddr>, ip: IpAddr, text: IpText)
    requires text.Lawful() && NoDuplicates(order)
    ensures LineCount(LinesFor(order, text), ip, text) == if ip in order then 1 else 0
  {
    if order != [] {
      var first := text.show(order[0]);
      PrintedIsPlain(text, order[0]);
      PrintedEntry(text, order[0]);
      LinesSingle(first);
      LinesConcat(first + "\n", LinesFor(order[1..], text));
      CountConcat([first], Lines(LinesFor(order[1..], text)), text.show(ip));
      CountLinesFor(order[1..], ip, text);
      assert first == text.show(ip) <==> order[0] == ip;
      if order[0] == ip {
        assert ip !in order[1..];
      }
    }
  }

  lemma CountNewline(content: string, ip: IpAddr, text: IpText)
    requires text.Lawful()
    ensures LineCount(content + "\n", ip, text) == LineCount(content, ip, text)
  {
    PrintedIsPlain(text, ip);
    if EndsWithNewline(content) {
      LinesConcat(content, "\n");
      LinesSingle("");
      assert "" + "\n" == "\n";
      CountConcat(Lines(content), [""], text.show(ip));
    } else {
      LinesTerminate(content);
    }
  }

  // A successful append adds one line for every listed address and no other.
  lemma CountAppend(content: string, order: seq<IpAddr>, guarded: bool, ip: IpAddr, text: IpText)
    requires text.Lawful() && NoDuplicates(order)
    ensures LineCount(AfterAppend(content, order, Written(guarded), text), ip, text)
      == LineCount(content, ip, text) + if ip in order then 1 else 0
  {
    var ready := if EndsWithNewline(content) && !guarded then content else content + "\n";
    LinesAfterWrite(content, order, guarded, text);
    CountConcat(Lines(ready), Lines(LinesFor(order, text)), text.show(ip));
    CountLinesFor(order, ip, text);
    CountNewline(content, ip, text);
  }

  // ------------------------------------------------------------ the account

  // The line of an address is in the file, but its record does not say so yet.
  predicate JustWritten(s: State, ip: IpAddr) {
    match s.lock
    case Nobody => false
    case Worker(w) => w < |s.workers| && s.workers[w] == Marking(ip)
    case Flusher => s.flusher.Recording? && ip in s.flusher.pending
  }

  // Episodes whose line is still to be written.
  function Outstanding(s: State, ip: IpAddr): nat {
    if IsUnwritten(s.tracker, ip) && !JustWritten(s, ip) then 1 else 0
  }

  function Balance(world: World, s: State, ip: IpAddr): int {
    LineCount(Content(s.disk, world.BanFile()), ip, world.text) + Outstanding(s, ip)
    - LineCount(s.ledger.initial, ip, world.text) - Episodes(s.ledger, ip)
  }

  // Lines gained plus lines outstanding are episodes, for every address.
  ghost predicate Accounted(world: World, s: State) {
    s.ledger.exact ==> forall ip :: Balance(world, s, ip) == 0
  }

  // Compaction stays away from the ban file as well as from the list.
  ghost predicate Apart(world: World) {
    Trusted(world) && world.Spares(world.BanFile())
  }

  // Same file, same ledger, same lines outstanding.
  lemma SameAccount(world: World, s: State, t: State)
    requires Accounted(world, s)
    requires Content(t.disk, world.BanFile()) == Content(s.disk, world.BanFile()) && t.ledger == s.ledger
    requires forall ip :: Outstanding(t, ip) == Outstanding(s, ip)
    ensures Accounted(world, t)
  {
    forall ip | t.ledger.exact
      ensures Balance(world, t, ip) == 0
    {
      assert Balance(world, s, ip) == 0;
    }
  }

  // ------------------------------------------------------------ worker actions

  // A worker that neither holds the lock before nor writes afterwards.
  lemma MoveAccounted(world: World, s: State, w: nat, pc: WorkerPc, lock: Owner)
    requires Inv(world, s) && Accounted(world, s) && w < |s.workers|
    requires lock == s.lock || lock == Nobody || (s.lock == Nobody && lock == Worker(w))
    requires lock != s.lock && s.lock != Nobody ==> s.lock == Worker(w)
    requires !s.workers[w].Marking? && !pc.Marking?
    ensures Accounted(world, Goto(s, w, pc).(lock := lock))
  {
    SameAccount(world, s, Goto(s, w, pc).(lock := lock));
  }

  lemma NewEpisode(world: World, s: State, w: nat, ip: IpAddr, reason: Reason, at: nat, other: IpAddr)
    requires Inv(world, s) && w < |s.workers| && (s.workers[w].Idle? || s.workers[w].Serving?)
    requires s.ledger.exact && Balance(world, s, other) == 0
    ensures Balance(world, DoRecordViolation(world, s, w, ip, reason, at), other) == 0
  {
    var (tracker, banned) := Violate(s.tracker, ip, reason, at, world.Settings());
    var t := DoRecordViolation(world, s, w, ip, reason, at);
    UnwrittenAfterViolation(s.tracker, ip, reason, at, world.Settings(), other);
    WriterIsUnwritten(world, s, other);
    WritesAside(s, w, t.workers[w], tracker, t.ledger, other);
    EpisodeBalances(world, s, t, ip, banned && IsPermanent(tracker, ip), other);
  }

  lemma WritesAside(s: State, w: nat, pc: WorkerPc, tracker: TrackerState, ledger: Ledger, ip: IpAddr)
    requires w < |s.workers| && !s.workers[w].Marking? && !pc.Marking?
    ensures JustWritten(Goto(s, w, pc).(tracker := tracker, ledger := ledger), ip) == JustWritten(s, ip)
  {
  }

  lemma EpisodeBalances(world: World, s: State, t: State, ip: IpAddr, condemned: bool, other: IpAddr)
    requires t.disk == s.disk && t.ledger == if condemned then Condemn(s.ledger, ip) else s.ledger
    requires JustWritten(t, other) == JustWritten(s, other)
    requires JustWritten(s, other) ==> IsUnwritten(s.tracker, other)
    requires if condemned && other == ip
      then IsUnwritten(t.tracker, other) && !IsPermanent(s.tracker, other)
      else IsUnwritten(t.tracker, other) == IsUnwritten(s.tracker, other)
    requires Balance(world, s, other) == 0
    ensures Balance(world, t, other) == 0
  {
  }

  // A line just written belongs to a record that is still unmarked.
  lemma WriterIsUnwritten(world: World, s: State, ip: IpAddr)
    requires Inv(world, s)
    ensures JustWritten(s, ip) ==> IsUnwritten(s.tracker, ip)
  {
    if s.lock.Worker? && s.lock.id < |s.workers| {
      assert WorkerOk(world, s, s.lock.id);
    }
  }

  // A violation makes one more unwritten record exactly when it bans for good.
  lemma UnwrittenAfterViolation(
      st: TrackerState, ip: IpAddr, reason: Reason, at: nat, settings: Settings, other: IpAddr)
    ensures var (after, banned) := Violate(st, ip, reason, at, settings);
      if other == ip && banned && IsPermanent(after, ip)
      then IsUnwritten(after, other) && !IsPermanent(st, other)
      else IsUnwritten(after, other) == IsUnwritten(st, other)
  {
    var (after, banned) := Violate(st, ip, reason, at, settings);
    if IsPermanent(st, other) {
      ViolationKeepsBanned(st, ip, reason, at, settings, other);
      AnswerIsTransition(st, ip, reason, at, settings, other);
    } else if IsPermanent(after, other) {
      NewPermanent(st, ip, reason, at, settings, other);
    }
  }

  lemma RecordViolationAccounted(world: World, s: State, w: nat, ip: IpAddr, reason: Reason, at: nat)
    requires Inv(world, s) && Accounted(world, s)
    ensures Accounted(world, DoRecordViolation(world, s, w, ip, reason, at))
  {
    if w < |s.workers| && (s.workers[w].Idle? || s.workers[w].Serving?) && s.ledger.exact {
      forall other
        ensures Balance(world, DoRecordViolation(world, s, w, ip, reason, at), other) == 0
      {
        assert Balance(world, s, other) == 0;
        NewEpisode(world, s, w, ip, reason, at, other);
      }
    }
  }

  lemma AppendLineAccounted(world: World, s: State, w: nat, fate: Fate)
    requires Inv(world, s) && Accounted(world, s) && world.text.Lawful()
    ensures Accounted(world, DoAppendLine(world, s, w, fate))
  {
    if w < |s.workers| && s.workers[w].Appending? {
      assert WorkerOk(world, s, w);
      var ip := s.workers[w].ip;
      var t := DoAppendLine(world, s, w, fate);
      if fate.OpenFailed? {
        MoveAccounted(world, s, w, Idle, Nobody);
      } else if fate.Written? && s.ledger.exact {
        forall other
          ensures Balance(world, t, other) == 0
        {
          assert Balance(world, s, other) == 0;
          CountAppend(Content(s.disk, world.BanFile()), [ip], fate.guarded, other, world.text);
        }
      }
    }
  }

  lemma MarkLineAccounted(world: World, s: State, w: nat)
    requires Inv(world, s) && Accounted(world, s)
    ensures Accounted(world, DoMarkLine(world, s, w))
  {
    if w < |s.workers| && s.workers[w].Marking? {
      assert WorkerOk(world, s, w);
      SameAccount(world, s, DoMarkLine(world, s, w));
    }
  }

  // ------------------------------------------------------------ flush actions

  lemma FlusherMoveAccounted(world: World, s: State, pc: FlushPc, lock: Owner)
    requires Accounted(world, s) && !s.flusher.Recording? && !pc.Recording?
    requires lock == s.lock || (s.lock == Flusher && lock == Nobody) || (s.lock == Nobody && lock == Flusher)
    ensures Accounted(world, s.(flusher := pc, lock := lock))
  {
    SameAccount(world, s, s.(flusher := pc, lock := lock));
  }

  lemma FlushAppendAccounted(world: World, s: State, order: seq<IpAddr>, fate: Fate)
    requires Inv(world, s) && Accounted(world, s) && world.text.Lawful()
    ensures Accounted(world, DoFlushAppend(world, s, order, fate))
  {
    if s.flusher.Writing? && Lists(order, s.flusher.pending) {
      var t := DoFlushAppend(world, s, order, fate);
      if fate.OpenFailed? {
        FlusherMoveAccounted(world, s, CleanupDue, Nobody);
      } else if fate.Written? && s.ledger.exact {
        forall ip
          ensures Balance(world, t, ip) == 0
        {
          assert Balance(world, s, ip) == 0;
          assert ip in SetOf(order) <==> ip in order;
          CountAppend(Content(s.disk, world.BanFile()), order, fate.guarded, ip, world.text);
        }
      }
    }
  }

  lemma FlushRecordAccounted(world: World, s: State)
    requires Inv(world, s) && Accounted(world, s)
    ensures Accounted(world, DoFlushRecord(world, s))
  {
    if s.flusher.Recording? {
      SameAccount(world, s, DoFlushRecord(world, s));
    }
  }

  lemma FlushRemoveAccounted(world: World, s: State)
    requires Inv(world, s) && Accounted(world, s)
    ensures Accounted(world, DoFlushRemove(world, s))
  {
    if s.flusher.Reloaded? {
      var t := DoFlushRemove(world, s);
      forall ip
        ensures Outstanding(t, ip) == Outstanding(s, ip)
      {
        if ip in s.flusher.banned {
          assert IsPersisted(s.tracker, ip);
        }
        WriterIsUnwritten(world, s, ip);
      }
      SameAccount(world, s, t);
    }
  }

  lemma FlushCleanupAccounted(world: World, s: State, at: nat)
    requires Inv(world, s) && Accounted(world, s)
    ensures Accounted(world, DoFlushCleanup(world, s, at))
  {
    if s.flusher.CleanupDue? {
      var t := DoFlushCleanup(world, s, at);
      CleanupEvolves(s.tracker, at, world.Settings());
      forall ip
        ensures IsUnwritten(t.tracker, ip) == IsUnwritten(s.tracker, ip)
      {
        assert IsPermanent(s.tracker, ip) <==> IsPermanent(t.tracker, ip);
      }
      SameAccount(world, s, t);
    }
  }

  lemma CheckAccounted(world: World, s: State, w: nat, ip: IpAddr, at: nat)
    requires Inv(world, s) && Accounted(world, s)
    ensures Accounted(world, DoCheckMemory(world, s, w, ip, at))
    ensures Accounted(world, DoCheckList(world, s, w))
  {
    if At(s, w) == Some(Idle) {
      MoveAccounted(world, s, w, Checked(ip, ip in s.ledger.permanent), s.lock);
    }
    if w < |s.workers| && s.workers[w].Checked? {
      MoveAccounted(world, s, w, DoCheckList(world, s, w).workers[w], s.lock);
    }
  }

  lemma ListFirstAccounted(world: World, s: State, w: nat, ip: IpAddr, at: nat)
    requires Inv(world, s) && Accounted(world, s)
    ensures Accounted(world, DoCheckListFirst(world, s, w, ip))
    ensures Accounted(world, DoCheckMemorySecond(world, s, w, at))
    ensures Accounted(world, DoFinish(s, w))
  {
    if w < |s.workers| {
      var pc := s.workers[w];
      if pc.Idle? {
        MoveAccounted(world, s, w, PassedList(ip, ip in s.ledger.permanent), s.lock);
      } else if pc.PassedList? {
        MoveAccounted(world, s, w, DoCheckMemorySecond(world, s, w, at).workers[w], s.lock);
      } else if pc.Serving? {
        MoveAccounted(world, s, w, Idle, s.lock);
      }
    }
  }

  lemma LockAccounted(world: World, s: State, w: nat)
    requires Inv(world, s) && Accounted(world, s)
    ensures Accounted(world, DoTakeLock(world, s, w))
    ensures Accounted(world, DoCheckUnwritten(world, s, w))
  {
    if w < |s.workers| && s.workers[w].WantsLock? && s.lock == Nobody {
      MoveAccounted(world, s, w, HoldsLock(s.workers[w].ip), Worker(w));
    }
    if w < |s.workers| && s.workers[w].HoldsLock? {
      assert WorkerOk(world, s, w);
      var t := DoCheckUnwritten(world, s, w);
      MoveAccounted(world, s, w, t.workers[w], t.lock);
    }
  }

  lemma ClientBanAccounted(world: World, s: State, w: nat, wall: nat, mono: nat)
    requires Inv(world, s) && Accounted(world, s)
    ensures Accounted(world, DoReadExpiry(world, s, w, wall, mono))
    ensures Accounted(world, DoTakeClientLock(s, w))
  {
    if w < |s.workers| {
      var pc := s.workers[w];
      if pc.WantsExpiry? {
        MoveAccounted(world, s, w, DoReadExpiry(world, s, w, wall, mono).workers[w], s.lock);
      } else if pc.WantsClientLock? && s.lock == Nobody {
        MoveAccounted(world, s, w, ClientAppending(pc.ip, pc.expire), Worker(w));
      }
    }
  }

  lemma AppendClientAccounted(world: World, s: State, w: nat, fate: Fate)
    requires Inv(world, s) && Accounted(world, s) && world.Spares(world.BanFile())
    ensures Accounted(world, DoAppendClient(world, s, w, fate))
  {
    if w < |s.workers| && s.workers[w].ClientAppending? {
      assert WorkerOk(world, s, w);
      SameAccount(world, s, DoAppendClient(world, s, w, fate));
    }
  }

  lemma CompactionAccounted(world: World, s: State, a: Action)
    requires Inv(world, s) && Accounted(world, s) && world.Spares(world.BanFile())
    requires a.WakeUp? || a.WriteSibling? || a.RenameSibling?
    ensures Accounted(world, Step(world, s, a))
  {
    SameAccount(world, s, Step(world, s, a));
  }

  lemma WorkerStepAccounted(world: World, s: State, a: Action)
    requires Inv(world, s) && Accounted(world, s) && Apart(world) && IsWorkerAction(a)
    ensures Accounted(world, Step(world, s, a))
  {
    match a
    case CheckMemory(w, ip, at) => CheckAccounted(world, s, w, ip, at);
    case CheckList(w) => CheckAccounted(world, s, w, V4(0), 0);
    case CheckListFirst(w, ip) => ListFirstAccounted(world, s, w, ip, 0);
    case CheckMemorySecond(w, at) => ListFirstAccounted(world, s, w, V4(0), at);
    case Finish(w) => ListFirstAccounted(world, s, w, V4(0), 0);
    case RecordViolation(w, ip, reason, at) => RecordViolationAccounted(world, s, w, ip, reason, at);
    case TakeLock(w) => LockAccounted(world, s, w);
    case CheckUnwritten(w) => LockAccounted(world, s, w);
    case AppendLine(w, fate) => AppendLineAccounted(world, s, w, fate);
    case MarkLine(w) => MarkLineAccounted(world, s, w);
    case ReadExpiry(w, wall, mono) => ClientBanAccounted(world, s, w, wall, mono);
    case TakeClientLock(w) => ClientBanAccounted(world, s, w, 0, 0);
    case AppendClient(w, fate) => AppendClientAccounted(world, s, w, fate);
  }

  lemma SnapshotAccounted(world: World, s: State)
    requires Accounted(world, s)
    ensures Accounted(world, DoFlushSnapshot(world, s))
    ensures Accounted(world, DoFlushTakeLock(world, s))
  {
    if s.flusher.Awake? {
      FlusherMoveAccounted(world, s, DoFlushSnapshot(world, s).flusher, s.lock);
    }
    if s.flusher.Snapped? && s.lock == Nobody {
      FlusherMoveAccounted(world, s, DoFlushTakeLock(world, s).flusher, Flusher);
    }
  }

  lemma RecheckAccounted(world: World, s: State)
    requires Inv(world, s) && Accounted(world, s)
    ensures Accounted(world, DoFlushRecheck(world, s))
  {
    if s.flusher.Locked? {
      FlusherMoveAccounted(world, s, DoFlushRecheck(world, s).flusher, DoFlushRecheck(world, s).lock);
    }
  }

  lemma ReloadAccounted(world: World, s: State, ok: bool)
    requires Accounted(world, s)
    ensures Accounted(world, DoFlushReload(world, s, ok))
    ensures Accounted(world, DoSignalReload(world, s, ok))
  {
    SameAccount(world, s, DoFlushReload(world, s, ok));
    SameAccount(world, s, DoSignalReload(world, s, ok));
  }

  lemma FlushStepAccounted(world: World, s: State, a: Action)
    requires Inv(world, s) && Accounted(world, s) && world.text.Lawful()
    requires !IsWorkerAction(a) && !a.WakeUp? && !a.WriteSibling? && !a.RenameSibling?
    ensures Accounted(world, Step(world, s, a))
  {
    match a
    case FlushSnapshot => SnapshotAccounted(world, s);
    case FlushTakeLock => SnapshotAccounted(world, s);
    case FlushRecheck => RecheckAccounted(world, s);
    case FlushAppend(order, fate) => FlushAppendAccounted(world, s, order, fate);
    case FlushRecord => FlushRecordAccounted(world, s);
    case FlushReload(ok) => ReloadAccounted(world, s, ok);
    case FlushRemove => FlushRemoveAccounted(world, s);
    case FlushCleanup(at) => FlushCleanupAccounted(world, s, at);
    case SignalReload(ok) => ReloadAccounted(world, s, ok);
    case Restart(_, _, _) =>
  }

  lemma StepAccounted(world: World, s: State, a: Action)
    requires Inv(world, s) && Accounted(world, s) && Apart(world)
    ensures Accounted(world, Step(world, s, a))
  {
    if IsWorkerAction(a) {
      WorkerStepAccounted(world, s, a);
    } else if a.WakeUp? || a.WriteSibling? || a.RenameSibling? {
      CompactionAccounted(world, s, a);
    } else {
      FlushStepAccounted(world, s, a);
    }
  }

  lemma {:induction false} RunAccounted(world: World, states: seq<State>, actions: seq<Action>, k: nat)
    requires Apart(world) && IsRun(world, states, actions) && Initial(world, states[0])
    requires k < |states|
    ensures Accounted(world, states[k])
  {
    if k == 0 {
      forall ip
        ensures Balance(world, states[0], ip) == 0
      {
      }
    } else {
      RunAccounted(world, states, actions, k - 1);
      RunInv(world, states, actions, k - 1);
      StepAccounted(world, states[k - 1], actions[k - 1]);
    }
  }

  // Only a torn write or a crash can disturb the account.
  predicate Disturbs(a: Action) {
    || a.Restart?
    || (a.AppendLine? && a.fate.Torn?)
    || (a.FlushAppend? && a.fate.Torn?)
  }

  lemma {:induction false} ExactUntilDisturbed(world: World, states: seq<State>, actions: seq<Action>, k: nat)
    requires IsRun(world, states, actions) && Initial(world, states[0])
    requires forall a <- actions :: !Disturbs(a)
    requires k < |states|
    ensures states[k].ledger.exact && states[k].ledger.initial == states[0].ledger.initial
  {
    if k > 0 {
      ExactUntilDisturbed(world, states, actions, k - 1);
      assert actions[k - 1] in actions;
    }
  }

  // In every run without torn writes of the hand-off and crashes, at every step
  // and for every address, the ban file has gained exactly one line per
  // permanent-ban episode, but for the one episode that may still wait for its
  // line; and whenever flush_to_file has returned a set of addresses, the line of
  // each is there.
  lemma AppendedOnce(world: World, states: seq<State>, actions: seq<Action>, k: nat, ip: IpAddr)
    requires Apart(world) && IsRun(world, states, actions) && Initial(world, states[0])
    requires forall a <- actions :: !Disturbs(a)
    requires k < |states|
    ensures var s := states[k];
      && LineCount(Content(s.disk, world.BanFile()), ip, world.text)
         == LineCount(Content(states[0].disk, world.BanFile()), ip, world.text)
            + Episodes(s.ledger, ip) - Outstanding(s, ip)
      && (s.flusher.Flushed? && ip in s.flusher.banned ==>
           HasLine(Content(s.disk, world.BanFile()), ip, world.text))
  {
    RunAccounted(world, states, actions, k);
    ExactUntilDisturbed(world, states, actions, k);
    assert Balance(world, states[k], ip) == 0;
    RunInv(world, states, actions, k);
    if states[k].flusher.Flushed? {
      SameFile(world);
    }
  }
}
