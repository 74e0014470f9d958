// What the hand-off gets done: a round of the flush thread that nothing disturbs
// hands every permanent ban over, whatever failed before it.
module HandoffProgress {
  import opened Base
  import opened Text
  import opened Ip
  import opened Policy
  import opened Tracker
  import opened BanRuns
  import opened BanList
  import opened Handoff
  import opened HandoffSafety
  import ClientBans
  import ClientRuns

  // The configuration has permanent bans.
  predicate BansForGood(world: World) {
    world.auto.banDurationSecs == 0 || world.auto.escalationEnabled
  }

  lemma PermanentBansAreHandedOver(world: World)
    requires world.Accepted() && BansForGood(world)
    ensures HandsOver(world) && world.BanFile() == world.ListFile()
  {
  }

  // What the flush thread does in a round in which nothing fails. Steps that turn
  // out not to be needed change nothing.
  function Round(order: seq<IpAddr>, guarded: bool): seq<Action> {
    [FlushSnapshot, FlushTakeLock, FlushRecheck, FlushAppend(order, Written(guarded)), FlushRecord,
     FlushReload(true), FlushRemove]
  }

  // The permanently banned addresses without a line, in any order.
  ghost predicate IsOrderOfUnwritten(order: seq<IpAddr>, st: TrackerState) {
    && NoDuplicates(order)
    && forall ip :: ip in order <==>
         ip in st.records && st.records[ip].permanent && !st.records[ip].persisted
  }

  // The bans that were permanent have lines in the list file, are banned by the
  // loaded list and have left memory.
  ghost predicate HandedOver(world: World, before: TrackerState, t: State) {
    && t.loaded.Valid()
    && forall ip <- before.records | before.records[ip].permanent ::
         && OnList(world, t.disk, ip)
         && IsBanned(t.loaded, ip)
         && ip !in t.tracker.records
  }

  // All other records are as they were.
  ghost predicate OthersStay(before: TrackerState, after: TrackerState) {
    forall ip | ip in before.records && !before.records[ip].permanent ::
      ip in after.records && after.records[ip] == before.records[ip]
  }

  // ------------------------------------------------------------ the steps of a round

  lemma FirstSteps(world: World, states: seq<State>, order: seq<IpAddr>, guarded: bool)
    requires IsRun(world, states, Round(order, guarded))
    ensures |states| == 8 && states[0].loaded.Valid()
    ensures states[1] == DoFlushSnapshot(world, states[0])
    ensures states[2] == DoFlushTakeLock(world, states[1])
    ensures states[3] == DoFlushRecheck(world, states[2])
  {
    StepOfRound(world, states, Round(order, guarded), 0);
    StepOfRound(world, states, Round(order, guarded), 1);
    StepOfRound(world, states, Round(order, guarded), 2);
  }

  lemma MiddleSteps(world: World, states: seq<State>, order: seq<IpAddr>, guarded: bool)
    requires IsRun(world, states, Round(order, guarded))
    ensures |states| == 8
    ensures states[4] == DoFlushAppend(world, states[3], order, Written(guarded))
    ensures states[5] == DoFlushRecord(world, states[4])
  {
    StepOfRound(world, states, Round(order, guarded), 3);
    StepOfRound(world, states, Round(order, guarded), 4);
  }

  lemma LastSteps(world: World, states: seq<State>, order: seq<IpAddr>, guarded: bool)
    requires IsRun(world, states, Round(order, guarded))
    ensures |states| == 8
    ensures states[6] == DoFlushReload(world, states[5], true)
    ensures states[7] == DoFlushRemove(world, states[6])
  {
    StepOfRound(world, states, Round(order, guarded), 5);
    StepOfRound(world, states, Round(order, guarded), 6);
  }

  lemma StepOfRound(world: World, states: seq<State>, actions: seq<Action>, k: nat)
    requires IsRun(world, states, actions) && k < |actions|
    ensures states[k].loaded.Valid() && states[k + 1] == Step(world, states[k], actions[k])
  {
  }

  lemma OrderLists(order: seq<IpAddr>, st: TrackerState)
    requires IsOrderOfUnwritten(order, st)
    ensures Lists(order, UnwrittenIps(st))
  {
    assert SetOf(order) == UnwrittenIps(st);
  }

  lemma NothingChanged(st: TrackerState)
    ensures StillUnwritten(st, UnwrittenIps(st)) == UnwrittenIps(st)
  {
  }

  // What the first five steps of a round come to.
  ghost function AfterRecord(world: World, s: State, order: seq<IpAddr>, guarded: bool): State {
    DoFlushRecord(world, DoFlushAppend(world,
      DoFlushRecheck(world, DoFlushTakeLock(world, DoFlushSnapshot(world, s))), order, Written(guarded)))
  }

  // The first half, when something is to be written.
  lemma LinesAreWritten(world: World, s: State, order: seq<IpAddr>, guarded: bool) returns (t: State)
    requires world.Accepted() && BansForGood(world) && IsOrderOfUnwritten(order, s.tracker)
    requires s.flusher == Awake && s.lock == Nobody && UnwrittenIps(s.tracker) != {}
    ensures t == s.(
      flusher := Flushed(PermanentIps(s.tracker)),
      tracker := MarkAll(s.tracker, UnwrittenIps(s.tracker)),
      disk := DiskAfter(world, s.disk, order, Written(guarded)))
    ensures t == AfterRecord(world, s, order, guarded)
  {
    var banned, pending := PermanentIps(s.tracker), UnwrittenIps(s.tracker);
    PermanentBansAreHandedOver(world);
    var ip :| ip in pending;
    assert ip in banned;
    var s1 := s.(flusher := Snapped(banned, pending));
    assert DoFlushSnapshot(world, s) == s1;
    var s2 := s1.(flusher := Locked(banned, pending), lock := Flusher);
    assert DoFlushTakeLock(world, s1) == s2;
    NothingChanged(s.tracker);
    var s3 := s2.(flusher := Writing(banned, pending));
    assert DoFlushRecheck(world, s2) == s3;
    OrderLists(order, s.tracker);
    var s4 := s3.(flusher := Recording(banned, pending), disk := DiskAfter(world, s.disk, order, Written(guarded)));
    assert DoFlushAppend(world, s3, order, Written(guarded)) == s4;
    t := s4.(flusher := Flushed(banned), tracker := MarkAll(s.tracker, pending), lock := Nobody);
  }

  // And when nothing is.
  lemma NothingIsWritten(world: World, s: State, order: seq<IpAddr>, guarded: bool) returns (t: State)
    requires world.Accepted() && BansForGood(world)
    requires s.flusher == Awake && PermanentIps(s.tracker) != {} && UnwrittenIps(s.tracker) == {}
    ensures t == s.(flusher := Flushed(PermanentIps(s.tracker)))
    ensures t == AfterRecord(world, s, order, guarded)
  {
    PermanentBansAreHandedOver(world);
    t := DoFlushSnapshot(world, s);
  }

  lemma LinesAreThere(world: World, s: State, order: seq<IpAddr>, guarded: bool)
    requires Inv(world, s) && world.Accepted() && BansForGood(world) && IsOrderOfUnwritten(order, s.tracker)
    ensures forall ip <- PermanentIps(s.tracker) ::
      OnList(world, DiskAfter(world, s.disk, order, Written(guarded)), ip)
  {
    PermanentBansAreHandedOver(world);
    DiskGrows(world, s.disk, order, Written(guarded));
    forall ip | ip in PermanentIps(s.tracker)
      ensures OnList(world, DiskAfter(world, s.disk, order, Written(guarded)), ip)
    {
      if !(ip in order) {
        assert IsPersisted(s.tracker, ip);
      }
    }
  }

  lemma OldLinesAreThere(world: World, s: State)
    requires Inv(world, s) && world.Accepted() && BansForGood(world) && UnwrittenIps(s.tracker) == {}
    ensures forall ip <- PermanentIps(s.tracker) :: OnList(world, s.disk, ip)
  {
    PermanentBansAreHandedOver(world);
    forall ip | ip in PermanentIps(s.tracker)
      ensures OnList(world, s.disk, ip)
    {
      assert ip !in UnwrittenIps(s.tracker);
      assert IsPersisted(s.tracker, ip);
    }
  }

  lemma ListFileExists(world: World, disk: map<string, string>, ip: IpAddr)
    requires OnList(world, disk, ip)
    ensures world.ListFile() in disk
  {
    assert Lines("") == [];
  }

  // The second half: the list is loaded and the records go.
  lemma ListTakesOver(world: World, s: State, banned: set<IpAddr>) returns (t: State)
    requires world.Accepted() && s.loaded.Valid() && s.flusher == Flushed(banned) && banned != {}
    requires forall ip <- banned :: OnList(world, s.disk, ip)
    ensures t == DoFlushRemove(world, DoFlushReload(world, s, true))
    ensures t.loaded.Valid() && t.disk == s.disk && t.lock == s.lock && t.workers == s.workers
    ensures t.flusher == CleanupDue && t.tracker == Remove(s.tracker, banned)
    ensures forall ip <- banned :: IsBanned(t.loaded, ip)
  {
    var some :| some in banned;
    ListFileExists(world, s.disk, some);
    var list := Load(s.disk[world.ListFile()], world.text);
    assert DoFlushReload(world, s, true) == s.(flusher := Reloaded(banned), loaded := list);
    t := s.(flusher := CleanupDue, loaded := list, tracker := Remove(s.tracker, banned));
    forall ip | ip in banned
      ensures IsBanned(t.loaded, ip)
    {
      LineIsLoaded(s.disk[world.ListFile()], ip, world.text);
    }
  }

  lemma NobodyToHandOver(world: World, s: State, order: seq<IpAddr>, guarded: bool)
    requires s.loaded.Valid() && s.flusher == Awake && PermanentIps(s.tracker) == {}
    ensures DoFlushRemove(world, DoFlushReload(world, AfterRecord(world, s, order, guarded), true))
      == s.(flusher := CleanupDue)
  {
  }

  lemma ResultOfRound(world: World, s: State, order: seq<IpAddr>, guarded: bool) returns (t: State)
    requires Inv(world, s) && world.Accepted() && BansForGood(world) && IsOrderOfUnwritten(order, s.tracker)
    requires s.flusher == Awake && s.lock == Nobody
    ensures t == DoFlushRemove(world, DoFlushReload(world, AfterRecord(world, s, order, guarded), true))
    ensures HandedOver(world, s.tracker, t) && OthersStay(s.tracker, t.tracker)
    ensures t.flusher == CleanupDue && t.lock == Nobody && t.workers == s.workers
  {
    if PermanentIps(s.tracker) == {} {
      NobodyToHandOver(world, s, order, guarded);
      t := s.(flusher := CleanupDue);
      assert forall ip <- s.tracker.records :: s.tracker.records[ip].permanent ==> ip in PermanentIps(s.tracker);
    } else {
      t := ResultWithBans(world, s, order, guarded);
    }
  }

  lemma ResultWithBans(world: World, s: State, order: seq<IpAddr>, guarded: bool) returns (t: State)
    requires Inv(world, s) && world.Accepted() && BansForGood(world) && IsOrderOfUnwritten(order, s.tracker)
    requires s.flusher == Awake && s.lock == Nobody && PermanentIps(s.tracker) != {}
    ensures t == DoFlushRemove(world, DoFlushReload(world, AfterRecord(world, s, order, guarded), true))
    ensures HandedOver(world, s.tracker, t) && OthersStay(s.tracker, t.tracker)
    ensures t.flusher == CleanupDue && t.lock == Nobody && t.workers == s.workers
  {
    var flushed;
    if UnwrittenIps(s.tracker) == {} {
      flushed := NothingIsWritten(world, s, order, guarded);
      OldLinesAreThere(world, s);
    } else {
      flushed := LinesAreWritten(world, s, order, guarded);
      LinesAreThere(world, s, order, guarded);
    }
    t := ListTakesOver(world, flushed, PermanentIps(s.tracker));
    BansHandedOver(world, s.tracker, flushed.tracker, t);
  }

  lemma BansHandedOver(world: World, before: TrackerState, flushed: TrackerState, t: State)
    requires flushed == before || flushed == MarkAll(before, UnwrittenIps(before))
    requires t.loaded.Valid() && t.tracker == Remove(flushed, PermanentIps(before))
    requires forall ip <- PermanentIps(before) :: OnList(world, t.disk, ip) && IsBanned(t.loaded, ip)
    ensures HandedOver(world, before, t) && OthersStay(before, t.tracker)
  {
    assert forall ip <- before.records :: before.records[ip].permanent <==> ip in PermanentIps(before);
    assert forall ip <- UnwrittenIps(before) :: before.records[ip].permanent;
  }

  // ------------------------------------------------------------ whole rounds

  // Progress. From every state the invariant allows, with any number of permanent
  // bans, written or not: a round of the flush thread in which nothing fails leaves
  // each of them with a line in the list file, banned by the loaded list and out of
  // memory, and all other records as they were. The lock is free again.
  lemma RoundHandsOver(world: World, states: seq<State>, order: seq<IpAddr>, guarded: bool)
    requires world.Accepted() && BansForGood(world) && IsRun(world, states, Round(order, guarded))
    requires Inv(world, states[0]) && states[0].flusher == Awake && states[0].lock == Nobody
    requires IsOrderOfUnwritten(order, states[0].tracker)
    ensures var s, t := states[0], states[7];
      && HandedOver(world, s.tracker, t) && OthersStay(s.tracker, t.tracker)
      && t.flusher == CleanupDue && t.lock == Nobody && t.workers == s.workers
  {
    FirstSteps(world, states, order, guarded);
    MiddleSteps(world, states, order, guarded);
    LastSteps(world, states, order, guarded);
    var t := ResultOfRound(world, states[0], order, guarded);
  }

  // There is always such an order.
  lemma {:induction false} SomeOrder(ips: set<IpAddr>) returns (order: seq<IpAddr>)
    ensures Lists(order, ips)
  {
    if ips == {} {
      order := [];
    } else {
      var ip :| ip in ips;
      var rest := SomeOrder(ips - {ip});
      assert ip !in SetOf(rest);
      order := rest + [ip];
      assert forall other :: other in order <==> other in SetOf(rest) || other == ip;
      assert SetOf(order) == ips;
    }
  }

  // Without permanent bans in the configuration a round changes nothing.
  lemma RoundWithoutBans(world: World, states: seq<State>, order: seq<IpAddr>, guarded: bool)
    requires !BansForGood(world) && IsRun(world, states, Round(order, guarded)) && states[0].flusher == Awake
    ensures states[7] == states[0].(flusher := CleanupDue)
  {
    FirstSteps(world, states, order, guarded);
    MiddleSteps(world, states, order, guarded);
    LastSteps(world, states, order, guarded);
  }

  // ------------------------------------------------------------ from sleep to sleep

  // The head of a round: a compaction of the client bans, if one is due, that may
  // fail anywhere.
  function Waking(readable: bool, nowUnix: u64, at: nat, fate: Fate, ok: bool, removed: bool): seq<Action> {
    [WakeUp(readable, nowUnix, at), WriteSibling(fate), RenameSibling(ok, removed)]
  }

  lemma WakingSteps(
      world: World, states: seq<State>, readable: bool, nowUnix: u64, at: nat, fate: Fate, ok: bool, removed: bool)
    requires IsRun(world, states, Waking(readable, nowUnix, at, fate, ok, removed))
    ensures |states| == 4
    ensures states[3] == DoRenameSibling(world,
      DoWriteSibling(world, DoWakeUp(world, states[0], readable, nowUnix, at), fate), ok, removed)
  {
    var actions := Waking(readable, nowUnix, at, fate, ok, removed);
    StepOfRound(world, states, actions, 0);
    StepOfRound(world, states, actions, 1);
    StepOfRound(world, states, actions, 2);
  }

  lemma WakingKeeps(
      world: World, states: seq<State>, readable: bool, nowUnix: u64, at: nat, fate: Fate, ok: bool, removed: bool)
    requires Trusted(world) && IsRun(world, states, Waking(readable, nowUnix, at, fate, ok, removed))
    requires Inv(world, states[0])
    ensures |states| == 4 && Inv(world, states[3])
  {
    var actions := Waking(readable, nowUnix, at, fate, ok, removed);
    CompactionKeeps(world, states[0], actions[0]);
    StepOfRound(world, states, actions, 0);
    CompactionKeeps(world, states[1], actions[1]);
    StepOfRound(world, states, actions, 1);
    CompactionKeeps(world, states[2], actions[2]);
    StepOfRound(world, states, actions, 2);
  }

  lemma WakesUp(
      world: World, states: seq<State>, readable: bool, nowUnix: u64, at: nat, fate: Fate, ok: bool, removed: bool)
    requires Trusted(world) && IsRun(world, states, Waking(readable, nowUnix, at, fate, ok, removed))
    requires Inv(world, states[0]) && states[0].flusher == Sleeping
    ensures |states| == 4 && Inv(world, states[3]) && states[3].flusher == Awake
    ensures states[3].tracker == states[0].tracker && states[3].lock == states[0].lock
    ensures states[3].workers == states[0].workers
  {
    WakingKeeps(world, states, readable, nowUnix, at, fate, ok, removed);
    WakingSteps(world, states, readable, nowUnix, at, fate, ok, removed);
    AwakeInTheEnd(world, states[0], readable, nowUnix, at, fate, ok, removed);
  }

  lemma AwakeInTheEnd(
      world: World, s: State, readable: bool, nowUnix: u64, at: nat, fate: Fate, ok: bool, removed: bool)
    requires s.flusher == Sleeping
    ensures var t := DoRenameSibling(world, DoWriteSibling(world, DoWakeUp(world, s, readable, nowUnix, at), fate),
        ok, removed);
      t.flusher == Awake && t.tracker == s.tracker && t.lock == s.lock && t.workers == s.workers
  {
  }

  // The same for a whole round, from sleep to sleep, whatever the compaction in
  // front of it does. The clean-up behind it leaves no stale record.
  lemma SleepToSleep(
      world: World, wake: seq<State>, states: seq<State>, order: seq<IpAddr>, guarded: bool, end: nat,
      readable: bool, nowUnix: u64, at: nat, fate: Fate, ok: bool, removed: bool)
    requires Trusted(world) && BansForGood(world)
    requires IsRun(world, wake, Waking(readable, nowUnix, at, fate, ok, removed))
    requires IsRun(world, states, Round(order, guarded)) && states[0] == wake[3]
    requires Inv(world, wake[0]) && wake[0].flusher == Sleeping && wake[0].lock == Nobody
    requires IsOrderOfUnwritten(order, wake[0].tracker)
    ensures states[7].loaded.Valid()
    ensures var t := Step(world, states[7], FlushCleanup(end));
      && HandedOver(world, wake[0].tracker, t) && NothingStale(t.tracker, end, world.auto.windowSecs)
      && t.flusher == Sleeping && t.lock == Nobody && t.workers == wake[0].workers
  {
    WakesUp(world, wake, readable, nowUnix, at, fate, ok, removed);
    RoundHandsOver(world, states, order, guarded);
    CleanedUp(world, states[7], end, wake[0].tracker);
  }

  lemma CleanedUp(world: World, s: State, end: nat, before: TrackerState)
    requires HandedOver(world, before, s) && s.flusher == CleanupDue
    ensures var t := Step(world, s, FlushCleanup(end));
      && HandedOver(world, before, t) && NothingStale(t.tracker, end, world.auto.windowSecs)
      && t.flusher == Sleeping && t.lock == s.lock && t.workers == s.workers
  {
    assert Step(world, s, FlushCleanup(end)) == DoFlushCleanup(world, s, end);
    SweptIsFresh(s.tracker, end, world.Settings());
  }

  // Every record is of a banned address or inside the window of its violations.
  ghost predicate NothingStale(st: TrackerState, now: nat, windowSecs: u64) {
    forall ip <- st.records :: !Stale(st.records[ip], now, windowSecs)
  }

  lemma SweptIsFresh(st: TrackerState, now: nat, settings: Settings)
    ensures NothingStale(Cleanup(st, now, settings), now, settings.windowSecs)
  {
    forall ip | ip in Cleanup(st, now, settings).records
      ensures !Stale(st.records[ip], now, settings.windowSecs)
    {
      StaleIsNotKept(st.records[ip], now, settings.windowSecs);
    }
  }

  // ------------------------------------------------------------ workers

  lemma NewBanIsBanned(st: TrackerState, ip: IpAddr, reason: Reason, at: nat, settings: Settings)
    requires !IsPermanent(st, ip)
    ensures var (after, banned) := Violate(st, ip, reason, at, settings);
      IsPermanent(after, ip) ==> banned
  {
    if IsPermanent(Violate(st, ip, reason, at, settings).0, ip) {
      NewPermanent(st, ip, reason, at, settings, ip);
    }
  }

  // A new permanent ban goes on to be written at once.
  lemma BanGoesToFile(world: World, s: State, w: nat, ip: IpAddr, reason: Reason, at: nat)
    requires world.Accepted() && BansForGood(world)
    requires w < |s.workers| && (s.workers[w].Idle? || s.workers[w].Serving?) && !IsPermanent(s.tracker, ip)
    ensures var t := DoRecordViolation(world, s, w, ip, reason, at);
      IsPermanent(t.tracker, ip) ==> t.workers[w] == WantsLock(ip) && ip in t.ledger.permanent
  {
    PermanentBansAreHandedOver(world);
    NewBanIsBanned(s.tracker, ip, reason, at, world.Settings());
  }

  function Persisting(w: nat, guarded: bool): seq<Action> {
    [TakeLock(w), CheckUnwritten(w), AppendLine(w, Written(guarded)), MarkLine(w)]
  }

  lemma WorkerSteps(world: World, states: seq<State>, w: nat, guarded: bool)
    requires IsRun(world, states, Persisting(w, guarded))
    ensures |states| == 5
    ensures states[4] == DoMarkLine(world, DoAppendLine(world, DoCheckUnwritten(world,
      DoTakeLock(world, states[0], w), w), w, Written(guarded)), w)
  {
    StepOfRound(world, states, Persisting(w, guarded), 0);
    StepOfRound(world, states, Persisting(w, guarded), 1);
    StepOfRound(world, states, Persisting(w, guarded), 2);
    StepOfRound(world, states, Persisting(w, guarded), 3);
  }

  lemma WorkerAppends(world: World, s: State, w: nat, ip: IpAddr, guarded: bool)
    requires w < |s.workers| && s.workers[w] == WantsLock(ip) && s.lock == Nobody && IsUnwritten(s.tracker, ip)
    ensures DoMarkLine(world, DoAppendLine(world, DoCheckUnwritten(world,
        DoTakeLock(world, s, w), w), w, Written(guarded)), w)
      == Goto(s, w, Idle).(
        tracker := MarkWritten(s.tracker, ip), disk := DiskAfter(world, s.disk, [ip], Written(guarded)))
  {
    var s2 := Goto(s, w, Appending(ip)).(lock := Worker(w));
    assert DoCheckUnwritten(world, DoTakeLock(world, s, w), w) == s2;
    var s3 := Goto(s, w, Marking(ip)).(lock := Worker(w), disk := DiskAfter(world, s.disk, [ip], Written(guarded)));
    assert DoAppendLine(world, s2, w, Written(guarded)) == s3;
  }

  lemma WorkerSkips(world: World, s: State, w: nat, ip: IpAddr, guarded: bool)
    requires w < |s.workers| && s.workers[w] == WantsLock(ip) && s.lock == Nobody && !IsUnwritten(s.tracker, ip)
    ensures DoMarkLine(world, DoAppendLine(world, DoCheckUnwritten(world,
        DoTakeLock(world, s, w), w), w, Written(guarded)), w) == Goto(s, w, Idle)
  {
  }

  // The worker that issued a permanent ban, undisturbed: the line of the address is
  // in the list file, its record says so, and the lock is free again.
  lemma WorkerWritesBan(world: World, states: seq<State>, w: nat, ip: IpAddr, guarded: bool)
    requires world.Accepted() && BansForGood(world) && IsRun(world, states, Persisting(w, guarded))
    requires Inv(world, states[0]) && states[0].lock == Nobody
    requires w < |states[0].workers| && states[0].workers[w] == WantsLock(ip)
    requires IsPermanent(states[0].tracker, ip)
    ensures var s, t := states[0], states[4];
      && OnList(world, t.disk, ip)
      && IsPermanent(t.tracker, ip) && t.tracker.records[ip].persisted
      && t.lock == Nobody && t.workers == s.workers[w := Idle] && t.flusher == s.flusher
  {
    var s := states[0];
    PermanentBansAreHandedOver(world);
    WorkerSteps(world, states, w, guarded);
    if IsUnwritten(s.tracker, ip) {
      WorkerAppends(world, s, w, ip, guarded);
      DiskGrows(world, s.disk, [ip], Written(guarded));
      assert ip in [ip];
    } else {
      WorkerSkips(world, s, w, ip, guarded);
      assert IsPersisted(s.tracker, ip);
    }
  }

  // ------------------------------------------------------------ client bans

  lemma ClientBanGoesToFile(world: World, s: State, w: nat, ip: IpAddr, at: nat)
    requires s.loaded.Valid() && world.KeepsClientBans()
    requires w < |s.workers| && (s.workers[w].Idle? || s.workers[w].Serving?)
    requires Violate(s.tracker, ip, ClientBanned, at, world.Settings()).1
    ensures var t := Step(world, s, RecordViolation(w, ip, ClientBanned, at));
      !IsPermanent(t.tracker, ip) ==> t.workers[w] == WantsExpiry(ip)
  {
    assert Step(world, s, RecordViolation(w, ip, ClientBanned, at))
      == DoRecordViolation(world, s, w, ip, ClientBanned, at);
  }

  function PersistingClient(w: nat, wall: nat, mono: nat, guarded: bool): seq<Action> {
    [ReadExpiry(w, wall, mono), TakeClientLock(w), AppendClient(w, Written(guarded))]
  }

  lemma ClientSteps(world: World, states: seq<State>, w: nat, wall: nat, mono: nat, guarded: bool)
    requires IsRun(world, states, PersistingClient(w, wall, mono, guarded))
    ensures |states| == 4
    ensures states[3] == DoAppendClient(world, DoTakeClientLock(DoReadExpiry(world, states[0], w, wall, mono), w), w,
      Written(guarded))
  {
    StepOfRound(world, states, PersistingClient(w, wall, mono, guarded), 0);
    StepOfRound(world, states, PersistingClient(w, wall, mono, guarded), 1);
    StepOfRound(world, states, PersistingClient(w, wall, mono, guarded), 2);
  }

  lemma ClientAppends(world: World, s: State, w: nat, ip: IpAddr, expire: u64, guarded: bool)
    requires w < |s.workers| && s.workers[w] == WantsClientLock(ip, expire) && s.lock == Nobody
    ensures DoAppendClient(world, DoTakeClientLock(s, w), w, Written(guarded))
      == Goto(s, w, Idle).(disk := ClientDiskAfter(world, s.disk, ip, expire, Written(guarded)))
  {
    assert DoTakeClientLock(s, w) == Goto(s, w, ClientAppending(ip, expire)).(lock := Worker(w));
  }

  lemma ReadsExpiry(world: World, s: State, w: nat, ip: IpAddr, wall: nat, mono: nat)
    requires w < |s.workers| && s.workers[w] == WantsExpiry(ip)
    requires ip in s.tracker.records && !s.tracker.records[ip].permanent && s.tracker.records[ip].bannedUntil.Some?
    ensures var expire := ClientBans.ExpiryToWrite(wall, mono, s.tracker.records[ip].bannedUntil.value);
      expire <= U64_MAX && DoReadExpiry(world, s, w, wall, mono) == Goto(s, w, WantsClientLock(ip, expire))
  {
  }

  lemma ClientLineHolds(content: string, ip: IpAddr, expire: u64, guarded: bool, text: IpText)
    requires text.Lawful()
    ensures ClientRuns.Holds(AfterClientAppend(content, ip, expire, Written(guarded), text), ip, expire, text)
  {
    var line := ClientBans.BanLine(ip, expire, text);
    var ready := if EndsWithNewline(content) && guarded then content + "\n" else content;
    assert AfterClientAppend(content, ip, expire, Written(guarded), text) ==
      ClientBans.AppendBan(ready, ip, expire, text);
    ClientRuns.AppendHolds(ready, ip, expire, ip, expire, text);
  }

  // The worker that issued a client ban, undisturbed: the client file gives the
  // address a ban that ends when the ban in memory does, in whole seconds.
  lemma WorkerWritesClientBan(
      world: World, states: seq<State>, w: nat, ip: IpAddr, wall: nat, mono: nat, guarded: bool)
    requires world.text.Lawful() && IsRun(world, states, PersistingClient(w, wall, mono, guarded))
    requires w < |states[0].workers| && states[0].workers[w] == WantsExpiry(ip) && states[0].lock == Nobody
    requires var records := states[0].tracker.records;
      ip in records && !records[ip].permanent && records[ip].bannedUntil.Some?
    ensures var expire := ClientBans.ExpiryToWrite(wall, mono, states[0].tracker.records[ip].bannedUntil.value);
      && expire <= U64_MAX
      && ClientRuns.Holds(Content(states[3].disk, world.ClientFile()), ip, expire, world.text)
      && states[3].lock == Nobody && states[3].workers == states[0].workers[w := Idle]
  {
    var s := states[0];
    var expire := ClientBans.ExpiryToWrite(wall, mono, s.tracker.records[ip].bannedUntil.value);
    ClientSteps(world, states, w, wall, mono, guarded);
    ReadsExpiry(world, s, w, ip, wall, mono);
    ClientAppends(world, Goto(s, w, WantsClientLock(ip, expire)), w, ip, expire, guarded);
    ClientLineHolds(Content(s.disk, world.ClientFile()), ip, expire, guarded, world.text);
  }

  // ------------------------------------------------------------ reloads

  // A reload on request, when the list file can be read: every address with a line
  // is banned from then on.
  lemma SignalLoadsList(world: World, s: State)
    requires world.text.Lawful() && world.ipBan.on && s.loaded.Valid() && world.ListFile() in s.disk
    ensures var t := Step(world, s, SignalReload(true));
      && t.loaded == Load(s.disk[world.ListFile()], world.text)
      && forall ip | OnList(world, s.disk, ip) :: IsBanned(t.loaded, ip)
  {
    var t := DoSignalReload(world, s, true);
    forall ip | OnList(world, s.disk, ip)
      ensures IsBanned(t.loaded, ip)
    {
      LineIsLoaded(s.disk[world.ListFile()], ip, world.text);
    }
  }

  // A restart, when the list file can be read: every address with a line is banned
  // by the list again.
  lemma RestartLoadsList(world: World, s: State, bans: map<IpAddr, u64>, nowUnix: u64, at: nat)
    requires world.text.Lawful() && (world.ipBan.on ==> world.ListFile() in s.disk)
    ensures var t := DoRestart(world, s, bans, nowUnix, at);
      && t.loaded.Valid() && t.disk == s.disk && t.lock == Nobody && t.flusher == Sleeping
      && |t.workers| == |s.workers| && (forall pc <- t.workers :: pc == Idle)
      && (world.ipBan.on ==> forall ip | OnList(world, s.disk, ip) :: IsBanned(t.loaded, ip))
  {
    forall ip | OnList(world, s.disk, ip)
      ensures IsBanned(Load(Content(s.disk, world.ListFile()), world.text), ip)
    {
      LineIsLoaded(Content(s.disk, world.ListFile()), ip, world.text);
    }
  }

  // And every client ban of the file that has time left is banned in memory.
  lemma RestartRestoresBans(
      world: World, s: State, bans: map<IpAddr, u64>, nowUnix: u64, at: nat, ip: IpAddr)
    requires world.ipBan.on ==> world.ListFile() in s.disk
    requires ip in bans && bans[ip] > nowUnix && Representable(bans[ip], nowUnix, at)
    ensures var t := DoRestart(world, s, bans, nowUnix, at);
      Banned(t.tracker, ip, at) && !t.tracker.records[ip].permanent
  {
    ClientRuns.RestoredIsBanned(bans, ip, nowUnix, at);
  }

  // ------------------------------------------------------------ compaction

  // An undisturbed compaction, once a day and at the first round after a start:
  // then the client file is rewritten, and otherwise it is left alone.
  lemma CompactsWhenDue(
      world: World, states: seq<State>, nowUnix: u64, at: nat, guarded: bool, removed: bool)
    requires IsRun(world, states, Waking(true, nowUnix, at, Written(guarded), true, removed))
    requires states[0].flusher == Sleeping && world.KeepsClientBans() && world.ClientFile() in states[0].disk
    ensures |states| == 4
    ensures var last, content := states[0].lastCompaction, states[0].disk[world.ClientFile()];
      Content(states[3].disk, world.ClientFile()) ==
        if last.None? || last.value + 86_400 * 1_000_000_000 <= at
        then ClientBans.Compact(content, nowUnix, world.text) else content
  {
    WakingSteps(world, states, true, nowUnix, at, Written(guarded), true, removed);
    CompactedContent(world, states[0], nowUnix, at, guarded, removed);
  }

  lemma CompactedContent(world: World, s: State, nowUnix: u64, at: nat, guarded: bool, removed: bool)
    requires s.flusher == Sleeping && world.KeepsClientBans() && world.ClientFile() in s.disk
    ensures var last, content := s.lastCompaction, s.disk[world.ClientFile()];
      var t := DoRenameSibling(world, DoWriteSibling(world, DoWakeUp(world, s, true, nowUnix, at), Written(guarded)),
        true, removed);
      Content(t.disk, world.ClientFile()) ==
        if last.None? || last.value + 86_400 * 1_000_000_000 <= at
        then ClientBans.Compact(content, nowUnix, world.text) else content
  {
    DailyIsDue(s.lastCompaction, at);
  }

  lemma DailyIsDue(last: Option<nat>, at: nat)
    ensures Due(last, at, 86_400) <==> last.None? || last.value + 86_400 * 1_000_000_000 <= at
  {
  }

  // ------------------------------------------------------------ who is served

  // Two checks in a row, in either order: a request is served exactly if the
  // address is banned neither in memory nor by the loaded list.
  lemma HttpOrderServes(world: World, states: seq<State>, w: nat, ip: IpAddr, at: nat)
    requires IsRun(world, states, [CheckMemory(w, ip, at), CheckList(w)]) && At(states[0], w) == Some(Idle)
    ensures |states| == 3 && states[0].loaded.Valid() && At(states[2], w).Some?
    ensures var s, pc := states[0], states[2].workers[w];
      if Banned(s.tracker, ip, at) || (world.ipBan.on && IsBanned(s.loaded, ip)) then pc == Idle
      else pc.Serving? && pc.ip == ip && !pc.listFirst
  {
    StepOfRound(world, states, [CheckMemory(w, ip, at), CheckList(w)], 0);
    StepOfRound(world, states, [CheckMemory(w, ip, at), CheckList(w)], 1);
    assert states[1] == DoCheckMemory(world, states[0], w, ip, at);
    assert states[2] == DoCheckList(world, states[1], w);
  }

  lemma ListFirstServes(world: World, states: seq<State>, w: nat, ip: IpAddr, at: nat)
    requires IsRun(world, states, [CheckListFirst(w, ip), CheckMemorySecond(w, at)]) && At(states[0], w) == Some(Idle)
    ensures |states| == 3 && states[0].loaded.Valid() && At(states[2], w).Some?
    ensures var s, pc := states[0], states[2].workers[w];
      if Banned(s.tracker, ip, at) || (world.ipBan.on && IsBanned(s.loaded, ip)) then pc == Idle
      else pc.Serving? && pc.ip == ip && pc.listFirst
  {
    StepOfRound(world, states, [CheckListFirst(w, ip), CheckMemorySecond(w, at)], 0);
    StepOfRound(world, states, [CheckListFirst(w, ip), CheckMemorySecond(w, at)], 1);
    assert states[1] == DoCheckListFirst(world, states[0], w, ip);
    assert states[2] == DoCheckMemorySecond(world, states[1], w, at);
  }
}
