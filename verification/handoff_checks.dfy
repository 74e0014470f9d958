// The two orders in which workers check a request. Memory first and list second
// never lets a permanently banned address through. List first and memory second
// does, exactly when the hand-off passes by in between.
module HandoffChecks {
  import opened Base
  import opened Text
  import opened Ip
  import opened Policy
  import opened Tracker
  import opened BanList
  import opened BanRuns
  import opened Handoff
  import opened HandoffSafety

  // ------------------------------------------------------------ what ends a ban

  // The hand-off drops the record of this address.
  predicate Drops(s: State, a: Action, ip: IpAddr) {
    a.FlushRemove? && s.flusher.Reloaded? && ip in s.flusher.banned
  }

  // A violation bans the address, and the ban is in force at this instant.
  ghost predicate BansAgain(world: World, s: State, a: Action, ip: IpAddr, at: nat) {
    && s.loaded.Valid()
    && a.RecordViolation? && a.ip == ip
    && !Banned(s.tracker, ip, at) && Banned(Step(world, s, a).tracker, ip, at)
  }

  predicate NotAfter(a: Action, at: nat) {
    match a
    case RecordViolation(_, _, _, then_) => then_ <= at
    case FlushCleanup(then_) => then_ <= at
    case _ => true
  }

  lemma ViolationKeepsLater(
      st: TrackerState, ip: IpAddr, reason: Reason, now: nat, settings: Settings, other: IpAddr, at: nat)
    requires Banned(st, other, at) && now <= at
    ensures Banned(Violate(st, ip, reason, now, settings).0, other, at)
  {
    ViolationKeepsBanned(st, ip, reason, now, settings, other);
  }

  predicate MovesTracker(a: Action) {
    a.RecordViolation? || a.MarkLine? || a.FlushRecord? || a.FlushRemove? || a.FlushCleanup? || a.Restart?
  }

  lemma TrackerStays(world: World, s: State, a: Action)
    requires s.loaded.Valid() && !MovesTracker(a)
    ensures Step(world, s, a).tracker == s.tracker
  {
  }

  // A ban in force at an instant ends before it only if the hand-off drops it, or
  // the whole server restarts.
  lemma OnlyDropsEnd(world: World, s: State, a: Action, ip: IpAddr, at: nat)
    requires Inv(world, s) && !a.Restart? && NotAfter(a, at)
    requires Banned(s.tracker, ip, at) && !Drops(s, a, ip)
    ensures Banned(Step(world, s, a).tracker, ip, at)
  {
    match a
    case RecordViolation(w, other, reason, now) =>
      ViolationKeepsLater(s.tracker, other, reason, now, world.Settings(), ip, at);
    case MarkLine(_) =>
    case FlushRecord =>
    case FlushRemove =>
    case FlushCleanup(_) =>
    case _ => TrackerStays(world, s, a);
  }

  lemma ViolationOfOther(
      st: TrackerState, ip: IpAddr, reason: Reason, now: nat, settings: Settings, other: IpAddr, at: nat)
    requires !Banned(st, other, at) && ip != other
    ensures !Banned(Violate(st, ip, reason, now, settings).0, other, at)
  {
    if Counts(st, ip, now, settings) {
      CountedViolation(st, ip, reason, now, settings);
    } else {
      UncountedViolation(st, ip, reason, now, settings);
    }
  }

  // And only a violation of the address brings one in.
  lemma OnlyViolationsBan(world: World, s: State, a: Action, ip: IpAddr, at: nat)
    requires Inv(world, s) && !a.Restart?
    requires !Banned(s.tracker, ip, at) && !BansAgain(world, s, a, ip, at)
    ensures !Banned(Step(world, s, a).tracker, ip, at)
  {
    match a
    case RecordViolation(w, other, reason, now) =>
      if other != ip {
        ViolationOfOther(s.tracker, other, reason, now, world.Settings(), ip, at);
      }
    case MarkLine(_) =>
    case FlushRecord =>
    case FlushRemove =>
    case FlushCleanup(_) =>
    case _ => TrackerStays(world, s, a);
  }

  // The reload that puts the address on the loaded list.
  ghost predicate PutsOnList(s: State, a: Action, t: State, ip: IpAddr) {
    && s.loaded.Valid() && t.loaded.Valid()
    && (a == FlushReload(true) || a == SignalReload(true))
    && !IsBanned(s.loaded, ip) && IsBanned(t.loaded, ip)
  }

  lemma OnlyReloadsList(world: World, s: State, a: Action, ip: IpAddr)
    requires Inv(world, s) && !a.Restart? && Inv(world, Step(world, s, a))
    requires !IsBanned(s.loaded, ip) && IsBanned(Step(world, s, a).loaded, ip)
    ensures PutsOnList(s, a, Step(world, s, a), ip)
  {
  }

  // ------------------------------------------------------------ between the two checks

  // The last time something stopped being true, and the first time it became so.
  lemma LastFall(b: seq<bool>, start: nat, last: nat) returns (m: nat)
    requires start <= last < |b| && b[start] && !b[last]
    ensures start <= m < last && b[m] && !b[m + 1]
    ensures forall k | m < k <= last :: !b[k]
    decreases last
  {
    m := last - 1;
    if !b[m] {
      m := LastFall(b, start, m);
    }
  }

  lemma FirstRise(b: seq<bool>, start: nat, last: nat) returns (r: nat)
    requires start <= last < |b| && !b[start] && b[last]
    ensures start <= r < last && !b[r] && b[r + 1]
    decreases last - start
  {
    r := start;
    if !b[start + 1] {
      r := FirstRise(b, start + 1, last);
    }
  }

  // A worker that checks the list first: it passes at step i, while the address is
  // under a permanent ban, and asks memory at step j; the process lives on and the
  // clock does not run backwards in between.
  ghost predicate ListFirstRequest(
      world: World, states: seq<State>, actions: seq<Action>, i: nat, j: nat, w: nat, ip: IpAddr, at: nat)
    requires |states| == |actions| + 1
  {
    && i < j < |actions|
    && states[i].loaded.Valid()
    && At(states[i], w) == Some(Idle) && actions[i] == CheckListFirst(w, ip)
    && ip in states[i].ledger.permanent && !(world.ipBan.on && IsBanned(states[i].loaded, ip))
    && actions[j] == CheckMemorySecond(w, at)
    && forall k | i < k < j ::
         !actions[k].Restart? && NotAfter(actions[k], at) && !(actions[k].CheckMemorySecond? && actions[k].w == w)
  }

  ghost predicate ListsAt(states: seq<State>, actions: seq<Action>, r: nat, ip: IpAddr)
    requires |states| == |actions| + 1 && r < |actions|
  {
    PutsOnList(states[r], actions[r], states[r + 1], ip)
  }

  // The record goes, and nothing bans the address again before step j.
  ghost predicate GoneFrom(
      world: World, states: seq<State>, actions: seq<Action>, m: nat, j: nat, ip: IpAddr, at: nat)
    requires |states| == |actions| + 1 && m < j < |actions|
  {
    && Drops(states[m], actions[m], ip)
    && forall k | m < k < j :: !BansAgain(world, states[k], actions[k], ip, at)
  }

  // The reload that lists the address and, after it, the removal of its record.
  ghost predicate HandedOver(
      world: World, states: seq<State>, actions: seq<Action>, i: nat, j: nat, ip: IpAddr, at: nat)
    requires |states| == |actions| + 1 && j < |actions|
  {
    exists r, m | i < r < m < j :: ListsAt(states, actions, r, ip) && GoneFrom(world, states, actions, m, j, ip, at)
  }

  ghost predicate GoodRun(world: World, states: seq<State>, actions: seq<Action>) {
    Trusted(world) && IsRun(world, states, actions) && Initial(world, states[0])
  }

  lemma Waits(
      world: World, states: seq<State>, actions: seq<Action>, i: nat, j: nat, w: nat, ip: IpAddr, at: nat, k: nat)
    requires GoodRun(world, states, actions)
    requires ListFirstRequest(world, states, actions, i, j, w, ip, at) && i < k <= j
    ensures At(states[k], w) == Some(PassedList(ip, true))
    decreases k
  {
    if k > i + 1 {
      Waits(world, states, actions, i, j, w, ip, at, k - 1);
      BetweenChecks(world, states, actions, i, j, w, ip, at, k - 1);
      StillWaits(world, states[k - 1], actions[k - 1], w, ip);
    } else {
      StartsToWait(world, states[i], w, ip);
    }
  }

  lemma StartsToWait(world: World, s: State, w: nat, ip: IpAddr)
    requires s.loaded.Valid() && At(s, w) == Some(Idle) && ip in s.ledger.permanent
    requires !(world.ipBan.on && IsBanned(s.loaded, ip))
    ensures At(Step(world, s, CheckListFirst(w, ip)), w) == Some(PassedList(ip, true))
  {
  }

  lemma BetweenChecks(
      world: World, states: seq<State>, actions: seq<Action>, i: nat, j: nat, w: nat, ip: IpAddr, at: nat, k: nat)
    requires IsRun(world, states, actions)
    requires ListFirstRequest(world, states, actions, i, j, w, ip, at) && i < k < j
    ensures states[k].loaded.Valid() && states[k + 1] == Step(world, states[k], actions[k])
    ensures !actions[k].Restart? && !(actions[k].CheckMemorySecond? && actions[k].w == w)
  {
  }

  lemma StillWaits(world: World, s: State, a: Action, w: nat, ip: IpAddr)
    requires s.loaded.Valid() && At(s, w) == Some(PassedList(ip, true))
    requires !a.Restart? && !(a.CheckMemorySecond? && a.w == w)
    ensures At(Step(world, s, a), w) == Some(PassedList(ip, true))
  {
  }

  lemma StaysOut(
      world: World, states: seq<State>, actions: seq<Action>, i: nat, j: nat, w: nat, ip: IpAddr, at: nat,
      m: nat, k: nat)
    requires GoodRun(world, states, actions)
    requires ListFirstRequest(world, states, actions, i, j, w, ip, at)
    requires i < m < j && GoneFrom(world, states, actions, m, j, ip, at) && m < k <= j
    ensures !Banned(states[k].tracker, ip, at)
    decreases k
  {
    if k > m + 1 {
      StaysOut(world, states, actions, i, j, w, ip, at, m, k - 1);
      RunInv(world, states, actions, k - 1);
      OnlyViolationsBan(world, states[k - 1], actions[k - 1], ip, at);
    }
  }

  lemma FindDrop(
      world: World, states: seq<State>, actions: seq<Action>, i: nat, j: nat, w: nat, ip: IpAddr, at: nat)
      returns (m: nat)
    requires GoodRun(world, states, actions)
    requires ListFirstRequest(world, states, actions, i, j, w, ip, at)
    requires !Banned(states[j].tracker, ip, at)
    ensures i < m < j && GoneFrom(world, states, actions, m, j, ip, at)
  {
    RunInv(world, states, actions, i);
    assert IsPermanent(states[i].tracker, ip);
    var b := seq(|states|, k requires 0 <= k < |states| => Banned(states[k].tracker, ip, at));
    m := LastFall(b, i + 1, j);
    RunInv(world, states, actions, m);
    if !Drops(states[m], actions[m], ip) {
      OnlyDropsEnd(world, states[m], actions[m], ip, at);
    }
    forall k | m < k < j
      ensures !BansAgain(world, states[k], actions[k], ip, at)
    {
      assert !b[k + 1];
    }
  }

  lemma FindReload(
      world: World, states: seq<State>, actions: seq<Action>, i: nat, j: nat, w: nat, ip: IpAddr, at: nat, m: nat)
      returns (r: nat)
    requires GoodRun(world, states, actions)
    requires ListFirstRequest(world, states, actions, i, j, w, ip, at)
    requires i < m < j && Drops(states[m], actions[m], ip)
    ensures i < r < m && ListsAt(states, actions, r, ip)
  {
    RunInv(world, states, actions, m);
    var b := seq(|states|, k requires 0 <= k < |states| => states[k].loaded.Valid() && IsBanned(states[k].loaded, ip));
    r := FirstRise(b, i + 1, m);
    RunInv(world, states, actions, r);
    RunInv(world, states, actions, r + 1);
    OnlyReloadsList(world, states[r], actions[r], ip);
  }

  // The exact condition. A worker that checks the list first and memory second
  // serves an address under a permanent ban if and only if the reload that lists
  // the address and the removal of its record both fall between its two checks,
  // in this order, and no violation has banned the address again by then.
  lemma ListFirstIsExact(
      world: World, states: seq<State>, actions: seq<Action>, i: nat, j: nat, w: nat, ip: IpAddr, at: nat)
    requires GoodRun(world, states, actions)
    requires ListFirstRequest(world, states, actions, i, j, w, ip, at)
    ensures At(states[j + 1], w) == Some(Serving(ip, true, true)) <==> HandedOver(world, states, actions, i, j, ip, at)
  {
    Waits(world, states, actions, i, j, w, ip, at, j);
    if !Banned(states[j].tracker, ip, at) {
      var m := FindDrop(world, states, actions, i, j, w, ip, at);
      var r := FindReload(world, states, actions, i, j, w, ip, at, m);
    } else if HandedOver(world, states, actions, i, j, ip, at) {
      var r, m :| i < r < m < j && ListsAt(states, actions, r, ip) && GoneFrom(world, states, actions, m, j, ip, at);
      StaysOut(world, states, actions, i, j, w, ip, at, m, j);
    }
  }

  // ------------------------------------------------------------ the run that fails

  // In any state of the flush thread between its append and its reload: if a
  // worker that checks the list first starts now, the reload and the removal can
  // pass by between its checks, and the banned address is served.
  lemma ServedDuringFlush(world: World, s: State, w: nat, ip: IpAddr, at: nat)
      returns (states: seq<State>, actions: seq<Action>)
    requires Trusted(world) && Inv(world, s)
    requires s.flusher.Flushed? && ip in s.flusher.banned && ip in s.ledger.permanent
    requires !IsBanned(s.loaded, ip) && world.ListFile() in s.disk
    requires w < |s.workers| && s.workers[w] == Idle
    ensures actions == [CheckListFirst(w, ip), FlushReload(true), FlushRemove, CheckMemorySecond(w, at)]
    ensures IsRun(world, states, actions) && states[0] == s
    ensures At(states[4], w) == Some(Serving(ip, true, true)) && ip in states[4].ledger.permanent
  {
    StepKeeps(world, s, CheckListFirst(w, ip));
    var s1 := Goto(s, w, PassedList(ip, true));
    assert Step(world, s, CheckListFirst(w, ip)) == s1;
    states, actions := ServedAfterReload(world, s1, w, ip, at);
    PrependRun(world, s, CheckListFirst(w, ip), states, actions);
    states, actions := [s] + states, [CheckListFirst(w, ip)] + actions;
  }

  lemma ServedAfterReload(world: World, s: State, w: nat, ip: IpAddr, at: nat)
      returns (states: seq<State>, actions: seq<Action>)
    requires Trusted(world) && Inv(world, s) && At(s, w) == Some(PassedList(ip, true))
    requires s.flusher.Flushed? && ip in s.flusher.banned && ip in s.ledger.permanent
    requires world.ListFile() in s.disk
    ensures actions == [FlushReload(true), FlushRemove, CheckMemorySecond(w, at)]
    ensures IsRun(world, states, actions) && states[0] == s
    ensures At(states[3], w) == Some(Serving(ip, true, true)) && ip in states[3].ledger.permanent
  {
    var s1 := Step(world, s, FlushReload(true));
    ReloadIsDone(world, s);
    states, actions := ServedAfterRemoval(world, s1, w, ip, at);
    PrependRun(world, s, FlushReload(true), states, actions);
    states, actions := [s] + states, [FlushReload(true)] + actions;
  }

  lemma ReloadIsDone(world: World, s: State)
    requires Trusted(world) && Inv(world, s) && s.flusher.Flushed? && world.ListFile() in s.disk
    ensures var t := Step(world, s, FlushReload(true));
      && t.loaded.Valid() && t.flusher == Reloaded(s.flusher.banned)
      && t.workers == s.workers && t.ledger == s.ledger
  {
    ReloadGoesOn(world, s);
    var t := DoFlushReload(world, s, true);
    assert Step(world, s, FlushReload(true)) == t;
  }

  lemma ReloadGoesOn(world: World, s: State)
    requires Trusted(world) && Inv(world, s) && s.flusher.Flushed? && world.ListFile() in s.disk
    ensures var t := DoFlushReload(world, s, true);
      && t.loaded.Valid() && t.flusher == Reloaded(s.flusher.banned)
      && t.workers == s.workers && t.ledger == s.ledger
  {
    FlushReloadKeeps(world, s, true);
  }

  lemma ServedAfterRemoval(world: World, s: State, w: nat, ip: IpAddr, at: nat)
      returns (states: seq<State>, actions: seq<Action>)
    requires s.loaded.Valid() && At(s, w) == Some(PassedList(ip, true))
    requires s.flusher.Reloaded? && ip in s.flusher.banned && ip in s.ledger.permanent
    ensures actions == [FlushRemove, CheckMemorySecond(w, at)]
    ensures IsRun(world, states, actions) && states[0] == s
    ensures At(states[2], w) == Some(Serving(ip, true, true)) && ip in states[2].ledger.permanent
  {
    var s1 := s.(flusher := CleanupDue, tracker := Remove(s.tracker, s.flusher.banned));
    var s2 := Goto(s1, w, Serving(ip, true, true));
    assert Step(world, s, FlushRemove) == s1;
    assert Step(world, s1, CheckMemorySecond(w, at)) == s2;
    states, actions := [s, s1, s2], [FlushRemove, CheckMemorySecond(w, at)];
  }

  // A configuration that bans for good at once, and an empty list.
  ghost predicate EmptyServer(world: World, s: State) {
    && Trusted(world) && HandsOver(world)
    && world.auto.banDurationSecs == 0 && world.auto.immediateBanSecs == 0
    && Initial(world, s) && s.tracker == EMPTY_TRACKER && s.loaded == NO_BANS
    && s.workers == [Idle, Idle]
    && world.ListFile() in s.disk && s.disk[world.ListFile()] == ""
  }

  // Such states are reached: a violation, its line, and the flush thread's
  // snapshot.
  lemma ReachesFlush(world: World, s: State, ip: IpAddr) returns (states: seq<State>, actions: seq<Action>)
    requires EmptyServer(world, s)
    ensures IsRun(world, states, actions) && states[0] == s
    ensures var t := states[|actions|];
      && t.flusher.Flushed? && ip in t.flusher.banned && ip in t.ledger.permanent
      && t.loaded == NO_BANS && world.ListFile() in t.disk && t.workers == [Idle, Idle]
  {
    var tracker := Violate(s.tracker, ip, SqlInjection, 0, world.Settings()).0;
    CountedViolation(s.tracker, ip, SqlInjection, 0, world.Settings());
    assert tracker.records.Keys == {ip};
    assert UnwrittenIps(tracker) == {ip};
    var ledger := Condemn(s.ledger, ip);
    var s1 := s.(tracker := tracker, workers := [WantsLock(ip), Idle], ledger := ledger);
    assert Step(world, s, RecordViolation(0, ip, SqlInjection, 0)) == s1;
    states, actions := WritesAndSnaps(world, s1, ip);
    PrependRun(world, s, RecordViolation(0, ip, SqlInjection, 0), states, actions);
    states, actions := [s] + states, [RecordViolation(0, ip, SqlInjection, 0)] + actions;
  }

  lemma WritesAndSnaps(world: World, s1: State, ip: IpAddr) returns (states: seq<State>, actions: seq<Action>)
    requires HandsOver(world) && world.BanFile() == world.ListFile()
    requires UnwrittenIps(s1.tracker) == {ip} && s1.workers == [WantsLock(ip), Idle]
    requires s1.loaded == NO_BANS && s1.lock == Nobody && s1.flusher == Sleeping && s1.lastCompaction == None
    requires world.ListFile() in s1.disk
    ensures IsRun(world, states, actions) && states[0] == s1
    ensures var t := states[|actions|];
      && t.flusher.Flushed? && ip in t.flusher.banned && t.ledger == s1.ledger
      && t.loaded == NO_BANS && world.ListFile() in t.disk && t.workers == [Idle, Idle]
  {
    var s2 := s1.(workers := [HoldsLock(ip), Idle], lock := Worker(0));
    assert Step(world, s1, TakeLock(0)) == s2;
    states, actions := AppendsAndSnaps(world, s2, ip);
    PrependRun(world, s1, TakeLock(0), states, actions);
    states, actions := [s1] + states, [TakeLock(0)] + actions;
  }

  lemma AppendsAndSnaps(world: World, s2: State, ip: IpAddr) returns (states: seq<State>, actions: seq<Action>)
    requires HandsOver(world) && world.BanFile() == world.ListFile()
    requires UnwrittenIps(s2.tracker) == {ip} && s2.workers == [HoldsLock(ip), Idle]
    requires s2.loaded == NO_BANS && s2.flusher == Sleeping && s2.lastCompaction == None
    requires world.ListFile() in s2.disk
    ensures IsRun(world, states, actions) && states[0] == s2
    ensures var t := states[|actions|];
      && t.flusher.Flushed? && ip in t.flusher.banned && t.ledger == s2.ledger
      && t.loaded == NO_BANS && world.ListFile() in t.disk && t.workers == [Idle, Idle]
  {
    assert ip in UnwrittenIps(s2.tracker);
    var s3 := s2.(workers := [Appending(ip), Idle]);
    var disk := DiskAfter(world, s2.disk, [ip], Written(false));
    var s4 := s3.(workers := [Marking(ip), Idle], disk := disk);
    assert Step(world, s2, CheckUnwritten(0)) == s3;
    assert Step(world, s3, AppendLine(0, Written(false))) == s4;
    states, actions := MarksAndSnaps(world, s4, ip);
    PrependRun(world, s3, AppendLine(0, Written(false)), states, actions);
    states, actions := [s3] + states, [AppendLine(0, Written(false))] + actions;
    PrependRun(world, s2, CheckUnwritten(0), states, actions);
    states, actions := [s2] + states, [CheckUnwritten(0)] + actions;
  }

  lemma MarksAndSnaps(world: World, s4: State, ip: IpAddr) returns (states: seq<State>, actions: seq<Action>)
    requires HandsOver(world)
    requires UnwrittenIps(s4.tracker) == {ip} && s4.workers == [Marking(ip), Idle]
    requires s4.loaded == NO_BANS && s4.flusher == Sleeping && s4.lastCompaction == None
    ensures IsRun(world, states, actions) && states[0] == s4
    ensures var t := states[|actions|];
      && t.flusher.Flushed? && ip in t.flusher.banned && t.ledger == s4.ledger
      && t.loaded == NO_BANS && t.disk == s4.disk && t.workers == [Idle, Idle]
  {
    assert ip in UnwrittenIps(s4.tracker);
    var tracker := MarkWritten(s4.tracker, ip);
    assert forall other <- UnwrittenIps(tracker) :: other in UnwrittenIps(s4.tracker);
    assert ip in PermanentIps(tracker) && UnwrittenIps(tracker) == {};
    var s5 := s4.(workers := [Idle, Idle], tracker := tracker, lock := Nobody);
    assert Step(world, s4, MarkLine(0)) == s5;
    states, actions := WakesAndSnaps(world, s5, ip);
    PrependRun(world, s4, MarkLine(0), states, actions);
    states, actions := [s4] + states, [MarkLine(0)] + actions;
  }

  lemma Snaps(world: World, s: State, t: State) returns (states: seq<State>, actions: seq<Action>)
    requires s.loaded.Valid() && t.loaded.Valid() && DoFlushSnapshot(world, s) == t
    ensures IsRun(world, states, actions) && states[0] == s && |actions| == 1 && states[1] == t
  {
    states, actions := [t], [];
    PrependRun(world, s, FlushSnapshot, states, actions);
    states, actions := [s] + states, [FlushSnapshot] + actions;
  }

  lemma WakesAndSnaps(world: World, s5: State, ip: IpAddr) returns (states: seq<State>, actions: seq<Action>)
    requires HandsOver(world)
    requires ip in PermanentIps(s5.tracker) && UnwrittenIps(s5.tracker) == {} && s5.workers == [Idle, Idle]
    requires s5.loaded == NO_BANS && s5.flusher == Sleeping && s5.lastCompaction == None
    ensures IsRun(world, states, actions) && states[0] == s5
    ensures var t := states[|actions|];
      && t.flusher.Flushed? && ip in t.flusher.banned && t.ledger == s5.ledger
      && t.loaded == NO_BANS && t.disk == s5.disk && t.workers == [Idle, Idle]
  {
    var s6 := s5.(flusher := Awake, lastCompaction := Some(0));
    var s7 := s6.(flusher := Flushed(PermanentIps(s5.tracker)));
    assert DoWakeUp(world, s5, false, 0, 0) == s6;
    states, actions := Snaps(world, s6, s7);
    PrependRun(world, s5, WakeUp(false, 0, 0), states, actions);
    states, actions := [s5] + states, [WakeUp(false, 0, 0)] + actions;
  }

  // The whole failing run: an accepted configuration, an empty list, ten steps, and
  // a worker serves an address that has been under a permanent ban all the while.
  lemma ListFirstServesBanned(world: World, s: State, ip: IpAddr, at: nat)
      returns (states: seq<State>, actions: seq<Action>)
    requires EmptyServer(world, s)
    ensures IsRun(world, states, actions) && states[0] == s
    ensures var t := states[|actions|];
      At(t, 1) == Some(Serving(ip, true, true)) && ip in t.ledger.permanent
  {
    var before, first := ReachesFlush(world, s, ip);
    RunInv(world, before, first, |first|);
    var after, second := ServedDuringFlush(world, before[|first|], 1, ip, at);
    JoinRuns(world, before, first, after, second);
    states, actions := before + after[1..], first + second;
  }
}
