// The flush thread's own compaction of the client bans: harmless exactly when
// neither the client file nor its sibling is the file of the IP ban list. The
// validator does not ask for that.
module HandoffCompaction {
  import opened Base
  import opened Text
  import opened Ip
  import opened Policy
  import opened Tracker
  import opened BanList
  import opened BanRuns
  import opened ClientBans
  import opened Handoff
  import opened HandoffSafety

  // ------------------------------------------------------------ reachability

  ghost predicate Reaches(world: World, s: State, t: State) {
    exists states, actions | IsRun(world, states, actions) :: states[0] == s && states[|actions|] == t
  }

  lemma StepReaches(world: World, s: State, a: Action)
    requires s.loaded.Valid()
    ensures Reaches(world, s, Step(world, s, a))
  {
    assert IsRun(world, [s, Step(world, s, a)], [a]);
  }

  lemma ReachesOn(world: World, s: State, t: State, u: State)
    requires Reaches(world, s, t) && Reaches(world, t, u)
    ensures Reaches(world, s, u)
  {
    var before, first :| IsRun(world, before, first) && before[0] == s && before[|first|] == t;
    var after, second :| IsRun(world, after, second) && after[0] == t && after[|second|] == u;
    JoinRuns(world, before, first, after, second);
    var states, actions := before + after[1..], first + second;
    assert states[|actions|] == u;
  }

  lemma ThenStep(world: World, s: State, t: State, a: Action, u: State)
    requires Reaches(world, s, t) && t.loaded.Valid() && Step(world, t, a) == u
    ensures Reaches(world, s, u)
  {
    StepReaches(world, t, a);
    ReachesOn(world, s, t, u);
  }

  // ------------------------------------------------------------ the parts of a failing run

  // A configuration that the validator accepts and that bans for good at once.
  ghost predicate BansAtOnce(world: World) {
    && world.Accepted() && HandsOver(world)
    && world.auto.banDurationSecs == 0 && world.auto.immediateBanSecs == 0
  }

  lemma FreshBan(world: World, st: TrackerState, ip: IpAddr)
    requires BansAtOnce(world) && ip !in st.records && !Full(st)
    ensures var (after, banned) := Violate(st, ip, SqlInjection, 0, world.Settings());
      && banned && IsUnwritten(after, ip)
      && after.records.Keys == st.records.Keys + {ip} && after.maxRecords == st.maxRecords
      && forall other <- st.records :: after.records[other] == st.records[other]
  {
  }

  // The tracker once a ban is written.
  function WithBan(world: World, st: TrackerState, ip: IpAddr): TrackerState {
    MarkWritten(Violate(st, ip, SqlInjection, 0, world.Settings()).0, ip)
  }

  // A violation, and its line in the file.
  lemma WritesBan(world: World, s: State, ip: IpAddr) returns (t: State)
    requires BansAtOnce(world) && s.loaded.Valid()
    requires s.workers == [Idle] && s.lock == Nobody
    requires ip !in s.tracker.records && !Full(s.tracker) && EndsWithNewline(Content(s.disk, world.ListFile()))
    ensures Reaches(world, s, t)
    ensures t == s.(
      tracker := WithBan(world, s.tracker, ip),
      disk := s.disk[world.ListFile() := Content(s.disk, world.ListFile()) + (world.text.show(ip) + "\n")],
      ledger := Condemn(s.ledger, ip))
  {
    SameFile(world);
    FreshBan(world, s.tracker, ip);
    var tracker := Violate(s.tracker, ip, SqlInjection, 0, world.Settings()).0;
    var s1 := s.(tracker := tracker, workers := [WantsLock(ip)], ledger := Condemn(s.ledger, ip));
    assert Step(world, s, RecordViolation(0, ip, SqlInjection, 0)) == s1;
    StepReaches(world, s, RecordViolation(0, ip, SqlInjection, 0));
    t := AppendsAndMarks(world, s, s1, ip);
  }

  lemma AppendsAndMarks(world: World, s: State, s1: State, ip: IpAddr) returns (t: State)
    requires Reaches(world, s, s1) && s1.loaded.Valid() && world.BanFile() == world.ListFile()
    requires s1.workers == [WantsLock(ip)] && s1.lock == Nobody && IsUnwritten(s1.tracker, ip)
    requires EndsWithNewline(Content(s1.disk, world.ListFile()))
    ensures Reaches(world, s, t)
    ensures t == s1.(
      tracker := MarkWritten(s1.tracker, ip), workers := [Idle],
      disk := s1.disk[world.ListFile() := Content(s1.disk, world.ListFile()) + (world.text.show(ip) + "\n")])
  {
    var s2 := s1.(workers := [HoldsLock(ip)], lock := Worker(0));
    ThenStep(world, s, s1, TakeLock(0), s2);
    var s3 := s2.(workers := [Appending(ip)]);
    ThenStep(world, s, s2, CheckUnwritten(0), s3);
    t := LineAndMark(world, s, s3, ip);
  }

  lemma LineAndMark(world: World, s: State, s3: State, ip: IpAddr) returns (t: State)
    requires Reaches(world, s, s3) && s3.loaded.Valid() && world.BanFile() == world.ListFile()
    requires s3.workers == [Appending(ip)]
    requires EndsWithNewline(Content(s3.disk, world.ListFile()))
    ensures Reaches(world, s, t)
    ensures t == s3.(
      tracker := MarkWritten(s3.tracker, ip), workers := [Idle], lock := Nobody,
      disk := s3.disk[world.ListFile() := Content(s3.disk, world.ListFile()) + (world.text.show(ip) + "\n")])
  {
    OneLine(Content(s3.disk, world.ListFile()), ip, world.text);
    var disk := DiskAfter(world, s3.disk, [ip], Written(false));
    var s4 := s3.(workers := [Marking(ip)], disk := disk);
    ThenStep(world, s, s3, AppendLine(0, Written(false)), s4);
    t := s4.(workers := [Idle], tracker := MarkWritten(s3.tracker, ip), lock := Nobody);
    ThenStep(world, s, s4, MarkLine(0), t);
  }

  lemma OneLine(content: string, ip: IpAddr, text: IpText)
    requires EndsWithNewline(content)
    ensures AfterAppend(content, [ip], Written(false), text) == content + (text.show(ip) + "\n")
  {
    assert [ip][1..] == [];
    assert LinesFor([ip], text) == text.show(ip) + "\n" + "";
    assert "" + LinesFor([ip], text) == text.show(ip) + "\n";
  }

  // What a compaction leaves on the disk.
  ghost function Compacted(world: World, disk: map<string, string>): map<string, string>
    requires world.ClientFile() in disk
  {
    var out := Compact(disk[world.ClientFile()], 0, world.text);
    if world.TempFile() == world.ClientFile() then disk[world.ClientFile() := out]
    else disk[world.TempFile() := out][world.ClientFile() := out] - {world.TempFile()}
  }

  lemma Compacts(world: World, s: State) returns (t: State)
    requires world.KeepsClientBans() && world.ClientFile() in s.disk && s.loaded.Valid()
    requires s.flusher == Sleeping && s.lastCompaction == None
    ensures Reaches(world, s, t)
    ensures t == s.(flusher := Awake, lastCompaction := Some(0), disk := Compacted(world, s.disk))
  {
    var out := Compact(s.disk[world.ClientFile()], 0, world.text);
    var s1 := s.(flusher := Compacting(out), lastCompaction := Some(0));
    WakeUpReaches(world, s, s1);
    var s2 := s1.(flusher := Renaming, disk := s.disk[world.TempFile() := out]);
    ThenStep(world, s, s1, WriteSibling(Written(false)), s2);
    t := s2.(flusher := Awake, disk := Compacted(world, s.disk));
    ThenStep(world, s, s2, RenameSibling(true, true), t);
  }

  lemma SnapshotReaches(world: World, s: State, t: State)
    requires s.loaded.Valid() && DoFlushSnapshot(world, s) == t
    ensures Reaches(world, s, t)
  {
    StepReaches(world, s, FlushSnapshot);
  }

  lemma WakeUpReaches(world: World, s: State, t: State)
    requires s.loaded.Valid() && DoWakeUp(world, s, true, 0, 0) == t
    ensures Reaches(world, s, t)
  {
    StepReaches(world, s, WakeUp(true, 0, 0));
  }

  // Once every permanent ban has its line: reload and removal.
  lemma HandsAllOver(world: World, s: State) returns (t: State)
    requires HandsOver(world) && s.flusher == Awake && s.loaded.Valid()
    requires PermanentIps(s.tracker) != {} && UnwrittenIps(s.tracker) == {} && world.ListFile() in s.disk
    ensures Reaches(world, s, t)
    ensures t == s.(
      flusher := CleanupDue,
      loaded := Load(s.disk[world.ListFile()], world.text),
      tracker := Remove(s.tracker, PermanentIps(s.tracker)))
  {
    var banned := PermanentIps(s.tracker);
    var s1 := s.(flusher := Flushed(banned));
    SnapshotReaches(world, s, s1);
    var s2 := s1.(flusher := Reloaded(banned), loaded := Load(s.disk[world.ListFile()], world.text));
    assert DoFlushReload(world, s1, true) == s2;
    ThenStep(world, s, s1, FlushReload(true), s2);
    t := s2.(flusher := CleanupDue, tracker := Remove(s.tracker, banned));
    ThenStep(world, s, s2, FlushRemove, t);
  }

  // ------------------------------------------------------------ the failing runs

  lemma OneSilentLine(line: string, text: IpText)
    requires ReadBan(line, text) == None
    ensures ParseFrom(map[], [line], 0, text) == map[]
  {
    assert [line][1..] == [];
  }

  lemma OneEntry(line: string)
    ensures EntriesOf([line]) == if Entry(line) == "" then [] else [Entry(line)]
  {
    assert [line][1..] == [];
  }

  // A line of the ban list says nothing about client bans, so compaction drops it.
  lemma BanLineIsDropped(ip: IpAddr, text: IpText)
    requires text.Lawful()
    ensures Compact(text.show(ip) + "\n", 0, text) == HEADER + "\n"
  {
    var line := text.show(ip);
    PrintedIsPlain(text, ip);
    LinesSingle(line);
    TrimNoSpaceEnds(line);
    FirstToken(line, "");
    assert line + "" == line;
    assert ReadBan(line, text) == None;
    OneSilentLine(line, text);
    assert HEADER + "\n" + "" == HEADER + "\n";
  }

  // And what it writes bans nobody.
  lemma HeaderBansNobody(text: IpText)
    ensures Load(HEADER + "\n", text) == NO_BANS
  {
    HeaderIsOneLine();
    LinesSingle(HEADER);
    assert HEADER[0] == HEADER_START[0] == '#';
    IndexOfIs(HEADER, '#', 0);
    assert StripBom(HEADER) == HEADER && HEADER[..0] == "";
    OneEntry(HEADER);
  }

  // An address under a permanent ban that is banned nowhere.
  ghost predicate Gap(world: World, s: State, ip: IpAddr) {
    && s.loaded.Valid() && ip in s.ledger.permanent
    && ip !in s.tracker.records && !IsBanned(s.loaded, ip)
  }

  // A server that has just started on empty files.
  ghost predicate StartsEmpty(world: World, s: State) {
    && Initial(world, s) && s.tracker == EMPTY_TRACKER && s.workers == [Idle] && s.loaded == NO_BANS
    && world.ListFile() in s.disk && s.disk[world.ListFile()] == ""
    && world.ClientFile() in s.disk && s.disk[world.ClientFile()] == ""
  }

  // When the client file is the list file: a ban is written, the first round of
  // the flush thread compacts it away, reloads and drops the record.
  lemma SharedFileLeavesGap(world: World, s: State, ip: IpAddr) returns (t: State)
    requires BansAtOnce(world) && StartsEmpty(world, s)
    requires world.KeepsClientBans() && world.ClientFile() == world.ListFile()
    ensures Reaches(world, s, t) && Gap(world, t, ip)
  {
    var s1 := WritesBan(world, s, ip);
    OneBanWritten(world, ip);
    assert Content(s.disk, world.ListFile()) + (world.text.show(ip) + "\n") == world.text.show(ip) + "\n";
    var s2 := Compacts(world, s1);
    ReachesOn(world, s, s1, s2);
    BanLineIsDropped(ip, world.text);
    t := ReloadsHeader(world, s, s2, ip);
  }

  lemma ReloadsHeader(world: World, s: State, s2: State, ip: IpAddr) returns (t: State)
    requires BansAtOnce(world) && Reaches(world, s, s2)
    requires s2.tracker == WithBan(world, EMPTY_TRACKER, ip) && s2.flusher == Awake && s2.loaded == NO_BANS
    requires ip in s2.ledger.permanent
    requires world.ListFile() in s2.disk && s2.disk[world.ListFile()] == HEADER + "\n"
    ensures Reaches(world, s, t) && Gap(world, t, ip)
  {
    OneBanWritten(world, ip);
    HeaderBansNobody(world.text);
    t := HandsAllOver(world, s2);
    ReachesOn(world, s, s2, t);
  }

  lemma OneBanWritten(world: World, ip: IpAddr)
    requires BansAtOnce(world)
    ensures var st := WithBan(world, EMPTY_TRACKER, ip);
      && PermanentIps(st) == {ip} && UnwrittenIps(st) == {} && st.records.Keys == {ip} && !Full(st)
  {
    FreshBan(world, EMPTY_TRACKER, ip);
    var st := WithBan(world, EMPTY_TRACKER, ip);
    assert st.records.Keys == {ip};
    assert ip in PermanentIps(st);
    assert |st.records| == |{ip}|;
  }

  lemma TwoBansWritten(world: World, ip: IpAddr, next: IpAddr)
    requires BansAtOnce(world) && ip != next
    ensures var st := WithBan(world, WithBan(world, EMPTY_TRACKER, ip), next);
      && PermanentIps(st) == {ip, next} && UnwrittenIps(st) == {}
  {
    OneBanWritten(world, ip);
    var one := WithBan(world, EMPTY_TRACKER, ip);
    assert ip in PermanentIps(one) && ip !in UnwrittenIps(one);
    FreshBan(world, one, next);
    var st := WithBan(world, one, next);
    assert st.records.Keys == {ip, next};
    assert ip in PermanentIps(st) && next in PermanentIps(st);
  }

  lemma ListBansOne(ip: IpAddr, other: IpAddr, text: IpText)
    requires text.Lawful() && Canonical(ip) != Canonical(other)
    ensures !IsBanned(Load(text.show(ip) + "\n", text), other)
  {
    var line := text.show(ip);
    PrintedIsPlain(text, ip);
    LinesSingle(line);
    PrintedEntry(text, ip);
    OneEntry(line);
    assert [line][1..] == [];
    assert LoadEntries(NO_BANS, [line], text) == AddOrSkip(NO_BANS, line, text);
    PrintedLineBans(NO_BANS, ip, other, text);
  }

  // When its sibling is the list file: the list is overwritten and renamed away,
  // the next ban starts a new one, and the first address is on neither.
  lemma SharedSiblingLeavesGap(world: World, s: State, ip: IpAddr, next: IpAddr) returns (t: State)
    requires BansAtOnce(world) && StartsEmpty(world, s) && Canonical(ip) != Canonical(next)
    requires world.KeepsClientBans() && world.ClientFile() != world.ListFile() && world.TempFile() == world.ListFile()
    ensures Reaches(world, s, t) && Gap(world, t, ip)
  {
    var s1 := WritesBan(world, s, ip);
    OneBanWritten(world, ip);
    var s2 := Compacts(world, s1);
    ReachesOn(world, s, s1, s2);
    t := NextBanOnly(world, s, s2, ip, next);
  }

  lemma NextBanOnly(world: World, s: State, s2: State, ip: IpAddr, next: IpAddr) returns (t: State)
    requires BansAtOnce(world) && Canonical(ip) != Canonical(next) && Reaches(world, s, s2)
    requires s2.tracker == WithBan(world, EMPTY_TRACKER, ip) && s2.flusher == Awake && s2.loaded == NO_BANS
    requires s2.workers == [Idle] && s2.lock == Nobody && ip in s2.ledger.permanent
    requires world.ListFile() !in s2.disk
    ensures Reaches(world, s, t) && Gap(world, t, ip)
  {
    OneBanWritten(world, ip);
    var s3 := WritesBan(world, s2, next);
    ReachesOn(world, s, s2, s3);
    TwoBansWritten(world, ip, next);
    assert Content(s2.disk, world.ListFile()) + (world.text.show(next) + "\n") == world.text.show(next) + "\n";
    t := HandsAllOver(world, s3);
    ReachesOn(world, s, s3, t);
    ListBansOne(next, ip, world.text);
  }

  // ------------------------------------------------------------ the exact condition

  function EmptyStart(world: World): State {
    var disk := map[world.ListFile() := "", world.ClientFile() := ""];
    State(EMPTY_TRACKER, disk, NO_BANS, Nobody, [Idle], Sleeping, None,
          Ledger({}, map[], Content(disk, world.BanFile()), true))
  }

  lemma EmptyStarts(world: World)
    ensures StartsEmpty(world, EmptyStart(world))
  {
  }

  lemma ReachedIsSafe(world: World, s: State, t: State, ip: IpAddr)
    requires Trusted(world) && Initial(world, s) && Reaches(world, s, t)
    ensures !Gap(world, t, ip)
  {
    var states, actions :| IsRun(world, states, actions) && states[0] == s && states[|actions|] == t;
    NoProtectionGap(world, states, actions, |actions|, 0);
  }

  // For a configuration that is accepted and bans for good at once, no run from
  // any start leaves an address unprotected if and only if neither the client file
  // nor its sibling is the list file.
  lemma SafeIffSpared(world: World)
    requires BansAtOnce(world)
    ensures world.Spares(world.ListFile()) <==>
      forall s, t, ip :: Initial(world, s) && Reaches(world, s, t) ==> !Gap(world, t, ip)
  {
    if world.Spares(world.ListFile()) {
      forall s, t, ip | Initial(world, s) && Reaches(world, s, t)
        ensures !Gap(world, t, ip)
      {
        ReachedIsSafe(world, s, t, ip);
      }
    } else {
      var s := EmptyStart(world);
      EmptyStarts(world);
      var t;
      if world.ClientFile() == world.ListFile() {
        t := SharedFileLeavesGap(world, s, V4(1));
      } else {
        t := SharedSiblingLeavesGap(world, s, V4(1), V4(2));
      }
      assert Initial(world, s) && Reaches(world, s, t) && Gap(world, t, V4(1));
    }
  }
}
