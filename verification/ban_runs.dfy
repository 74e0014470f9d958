// Whole runs of the auto-ban tracker: what its records mean, how long bans
// last, where permanent bans come from and how far the record map grows.
module BanRuns {
  import opened Base
  import opened Ip
  import opened Policy
  import opened Tracker

  // Everything that touches the records, each at its moment of the clock.
  datatype Op =
    | Violation(ip: IpAddr, reason: Reason, at: nat)
    | CleanupPass(at: nat)
    | RestoreBans(bans: map<IpAddr, u64>, nowUnix: u64, at: nat)
    | MarkedWritten(ips: set<IpAddr>, at: nat)
    | Removal(ips: set<IpAddr>, at: nat)

  function Apply(st: TrackerState, op: Op, settings: Settings): TrackerState {
    match op
    case Violation(ip, reason, at) => Violate(st, ip, reason, at, settings).0
    case CleanupPass(at) => Cleanup(st, at, settings)
    case RestoreBans(bans, nowUnix, at) => Restore(st, bans, nowUnix, at)
    case MarkedWritten(ips, _) => MarkAll(st, ips)
    case Removal(ips, _) => Remove(st, ips)
  }

  // The monotonic clock: no operation happens before the one in front of it.
  predicate InOrder(clock: nat, ops: seq<Op>)
    decreases |ops|
  {
    ops == [] || (clock <= ops[0].at && InOrder(ops[0].at, ops[1..]))
  }

  function Run(st: TrackerState, ops: seq<Op>, settings: Settings): TrackerState
    decreases |ops|
  {
    if ops == [] then st else Run(Apply(st, ops[0], settings), ops[1..], settings)
  }

  // ------------------------------------------------------------ the step, record by record

  // Whether a violation is added to the record of its address.
  predicate Counts(st: TrackerState, ip: IpAddr, now: nat, settings: Settings) {
    !Banned(st, ip, now) && !Refuses(st, ip, now, settings)
  }

  // A violation that is not counted adds no record and changes none, though it
  // may sweep.
  lemma UncountedViolation(st: TrackerState, ip: IpAddr, reason: Reason, now: nat, settings: Settings)
    requires !Counts(st, ip, now, settings)
    ensures var (after, banned) := Violate(st, ip, reason, now, settings);
      && !banned
      && after.records.Keys <= st.records.Keys
      && forall other <- after.records :: after.records[other] == st.records[other]
  {
  }

  // A counted violation writes the record of its address and no other.
  lemma CountedViolation(st: TrackerState, ip: IpAddr, reason: Reason, now: nat, settings: Settings)
    requires Counts(st, ip, now, settings)
    ensures var (after, banned) := Violate(st, ip, reason, now, settings);
      && ip in after.records
      && (after.records[ip], banned) == (
        if ip in st.records
        then ViolateTracked(st.records[ip], ip, reason, now, settings)
        else ViolateFresh(ip, reason, now, settings))
      && forall other <- after.records ::
           other != ip ==> other in st.records && after.records[other] == st.records[other]
  {
  }

  // A violation never touches the ban of an address that is banned right now.
  lemma ViolationKeepsBanned(
      st: TrackerState, ip: IpAddr, reason: Reason, now: nat, settings: Settings, other: IpAddr)
    requires Banned(st, other, now)
    ensures var after := Violate(st, ip, reason, now, settings).0;
      other in after.records && after.records[other] == st.records[other]
  {
  }

  // ------------------------------------------------------------ ban integrity

  lemma PunishBans(record: IpRecord, ip: IpAddr, reason: Reason, now: nat, settings: Settings)
    ensures Punish(record, ip, reason, now, settings).IsBanned(now)
  {
  }

  lemma TrackedBans(record: IpRecord, ip: IpAddr, reason: Reason, now: nat, settings: Settings)
    requires !record.IsBanned(now)
    ensures var (after, banned) := ViolateTracked(record, ip, reason, now, settings);
      banned <==> after.IsBanned(now)
  {
    var refreshed := Refreshed(record, now, settings.windowSecs);
    PunishBans(refreshed.(count := refreshed.count + 1), ip, reason, now, settings);
  }

  // `record_violation` answers true exactly when it moved the address from
  // unbanned to banned, and it moves no other address either way.
  lemma AnswerIsTransition(st: TrackerState, ip: IpAddr, reason: Reason, now: nat, settings: Settings, other: IpAddr)
    ensures var (after, banned) := Violate(st, ip, reason, now, settings);
      && (banned <==> !Banned(st, ip, now) && Banned(after, ip, now))
      && (other != ip ==> (Banned(after, other, now) <==> Banned(st, other, now)))
  {
    if Counts(st, ip, now, settings) {
      CountedViolation(st, ip, reason, now, settings);
      if ip in st.records {
        TrackedBans(st.records[ip], ip, reason, now, settings);
      } else {
        PunishBans(FreshRecord(now), ip, reason, now, settings);
      }
    } else {
      UncountedViolation(st, ip, reason, now, settings);
    }
    if Banned(st, other, now) {
      ViolationKeepsBanned(st, ip, reason, now, settings, other);
    }
  }

  // A new ban of kind Temporary(s) is in force on exactly [now, now + s): at no
  // earlier and no later instant.
  lemma TemporaryIsExact(record: IpRecord, secs: u64, now: nat, t: nat)
    requires secs > 0 && now + Nanos(secs) <= MAX_INSTANT
    ensures var after := ApplyBan(record, Temporary(secs), now);
      !after.permanent && (after.IsBanned(t) <==> t < now + Nanos(secs))
  {
  }

  // Banned for good, or at least until `until`.
  predicate HoldsUntil(st: TrackerState, ip: IpAddr, until: nat) {
    && ip in st.records
    && var record := st.records[ip];
       record.permanent || (record.bannedUntil.Some? && record.bannedUntil.value >= until)
  }

  predicate Removes(op: Op, ip: IpAddr) {
    op.Removal? && ip in op.ips
  }

  lemma StepHoldsBan(st: TrackerState, op: Op, settings: Settings, ip: IpAddr, until: nat)
    requires HoldsUntil(st, ip, until) && op.at < until && !Removes(op, ip)
    ensures HoldsUntil(Apply(st, op, settings), ip, until)
  {
    if op.Violation? {
      ViolationKeepsBanned(st, op.ip, op.reason, op.at, settings, ip);
    }
  }

  // Until it runs out, a ban survives every run of violations, sweeps, clean-ups,
  // restores and file writes; only its removal ends it early.
  lemma {:induction false} BanHoldsThroughRun(
      st: TrackerState, ops: seq<Op>, settings: Settings, ip: IpAddr, until: nat, t: nat)
    requires HoldsUntil(st, ip, until) && t < until
    requires forall op <- ops :: op.at <= t && !Removes(op, ip)
    ensures Banned(Run(st, ops, settings), ip, t)
    ensures HoldsUntil(Run(st, ops, settings), ip, until)
    decreases |ops|
  {
    if ops != [] {
      StepHoldsBan(st, ops[0], settings, ip, until);
      BanHoldsThroughRun(Apply(st, ops[0], settings), ops[1..], settings, ip, until, t);
    }
  }

  // ------------------------------------------------------------ what a record means

  // What really happened to an address since its record was created.
  datatype IpLog = IpLog(bans: seq<nat>, hits: seq<nat>)

  type Logs = map<IpAddr, IpLog>

  function LogOf(logs: Logs, ip: IpAddr): IpLog {
    if ip in logs then logs[ip] else IpLog([], [])
  }

  // The log of one address after an operation that leaves it with a record. A
  // restored ban that creates the record stands for one violation.
  function LogAfter(st: TrackerState, logs: Logs, op: Op, settings: Settings, ip: IpAddr): IpLog {
    var log := LogOf(logs, ip);
    if op.Violation? && op.ip == ip && Counts(st, ip, op.at, settings) then
      var banned := Violate(st, ip, op.reason, op.at, settings).1;
      IpLog(if banned then log.bans + [op.at] else log.bans, log.hits + [op.at])
    else if op.RestoreBans? && ip !in st.records then
      IpLog([], [op.at])
    else log
  }

  function LogsAfter(st: TrackerState, logs: Logs, op: Op, settings: Settings): Logs {
    map ip | ip in Apply(st, op, settings).records :: LogAfter(st, logs, op, settings, ip)
  }

  function RunLogs(st: TrackerState, logs: Logs, ops: seq<Op>, settings: Settings): Logs
    decreases |ops|
  {
    if ops == [] then logs
    else RunLogs(Apply(st, ops[0], settings), LogsAfter(st, logs, ops[0], settings), ops[1..], settings)
  }

  // The last n times form a run without a gap of `decay` seconds, and no longer
  // suffix does.
  ghost predicate IsLongestRun(times: seq<nat>, decay: nat, n: nat) {
    && n <= |times|
    && (times != [] ==> n > 0)
    && (forall i :: |times| - n < i < |times| ==> Elapsed(times[i], times[i - 1]) < decay)
    && (0 < n < |times| ==> Elapsed(times[|times| - n], times[|times| - n - 1]) >= decay)
  }

  // The offence counter against the bans that were really issued.
  ghost predicate OffensesOk(record: IpRecord, bans: seq<nat>, decay: nat) {
    && (exists n: nat :: IsLongestRun(bans, decay, n) && record.offenses == Min(n, U32_MAX))
    && record.lastOffense == if bans == [] then None else Some(bans[|bans| - 1])
  }

  // The violation counter against the violations that were really counted: the
  // last `count` of them lie in the window that opened at `firstViolation`, and
  // all others came before it.
  ghost predicate CountOk(record: IpRecord, hits: seq<nat>, windowSecs: nat) {
    && record.count <= |hits|
    && (forall i :: 0 <= i < |hits| - record.count ==> hits[i] < record.firstViolation)
    && (forall i :: |hits| - record.count <= i < |hits| ==>
         && record.firstViolation <= hits[i]
         && Elapsed(hits[i], record.firstViolation) < windowSecs)
  }

  predicate HasBan(record: IpRecord) {
    record.permanent || record.bannedUntil.Some?
  }

  ghost predicate Bounded(record: IpRecord, threshold: nat) {
    && 1 <= record.count <= Max(1, threshold)
    && (!HasBan(record) ==> record.count < threshold)
  }

  ghost predicate TimesOk(record: IpRecord, log: IpLog, clock: nat) {
    && record.firstViolation <= clock
    && (forall t <- log.hits :: t <= clock)
    && (record.bannedUntil.Some? ==> forall t <- log.hits :: t < record.bannedUntil.value)
  }

  ghost predicate RecordOk(record: IpRecord, log: IpLog, clock: nat, settings: Settings) {
    && OffensesOk(record, log.bans, settings.policy.offenseDecaySecs)
    && CountOk(record, log.hits, settings.windowSecs)
    && Bounded(record, settings.threshold)
    && TimesOk(record, log, clock)
  }

  ghost predicate AllOk(st: TrackerState, logs: Logs, clock: nat, settings: Settings) {
    && logs.Keys == st.records.Keys
    && forall ip <- st.records :: RecordOk(st.records[ip], logs[ip], clock, settings)
  }

  lemma LongestRunGrows(times: seq<nat>, decay: nat, n: nat, t: nat)
    requires IsLongestRun(times, decay, n)
    ensures IsLongestRun(times + [t], decay,
      if times != [] && Elapsed(t, times[|times| - 1]) < decay then n + 1 else 1)
  {
  }

  // Registering an offence keeps the counter equal to the longest run.
  lemma RegisterKeepsOffenses(record: IpRecord, bans: seq<nat>, now: nat, decay: u64)
    requires OffensesOk(record, bans, decay)
    ensures OffensesOk(RegisterOffense(record, now, decay), bans + [now], decay)
  {
    var n: nat :| IsLongestRun(bans, decay, n) && record.offenses == Min(n, U32_MAX);
    LongestRunGrows(bans, decay, n, now);
    var m := if bans != [] && Elapsed(now, bans[|bans| - 1]) < decay then n + 1 else 1;
    assert RegisterOffense(record, now, decay).offenses == Min(m, U32_MAX);
  }

  lemma FreshOffenses(now: nat, decay: nat)
    ensures OffensesOk(FreshRecord(now), [], decay)
  {
    assert IsLongestRun([], decay, 0);
  }

  // A punishment leaves the count alone and ends after the violation.
  lemma PunishKeeps(record: IpRecord, ip: IpAddr, reason: Reason, now: nat, settings: Settings)
    ensures var after := Punish(record, ip, reason, now, settings);
      && after.count == record.count
      && after.firstViolation == record.firstViolation
      && HasBan(after)
      && (after.bannedUntil.Some? ==> now < after.bannedUntil.value)
      && var offended := RegisterOffense(record, now, settings.policy.offenseDecaySecs);
         after.offenses == offended.offenses && after.lastOffense == offended.lastOffense
  {
  }

  // The record between the refresh and the decision: one violation more, all of
  // them inside the window.
  lemma CountingOk(record: IpRecord, log: IpLog, clock: nat, now: nat, settings: Settings)
    requires settings.windowSecs > 0 && clock <= now
    requires RecordOk(record, log, clock, settings) && !record.IsBanned(now)
    ensures var refreshed := Refreshed(record, now, settings.windowSecs);
      var counted := refreshed.(count := refreshed.count + 1);
      && !HasBan(counted)
      && CountOk(counted, log.hits + [now], settings.windowSecs)
      && 1 <= counted.count <= Max(1, settings.threshold)
      && counted.firstViolation <= now
      && counted.offenses == record.offenses && counted.lastOffense == record.lastOffense
  {
    var refreshed := Refreshed(record, now, settings.windowSecs);
    RefreshedCount(record, log, clock, now, settings);
    if refreshed.count == 0 {
      assert refreshed.firstViolation == now;
    } else {
      assert Elapsed(now, refreshed.firstViolation) < settings.windowSecs;
    }
  }

  lemma RefreshedCount(record: IpRecord, log: IpLog, clock: nat, now: nat, settings: Settings)
    requires settings.windowSecs > 0 && clock <= now
    requires RecordOk(record, log, clock, settings) && !record.IsBanned(now)
    ensures var refreshed := Refreshed(record, now, settings.windowSecs);
      && !HasBan(refreshed)
      && CountOk(refreshed, log.hits, settings.windowSecs)
      && ((refreshed.count == 0 && refreshed.firstViolation == now) || refreshed == record)
      && (refreshed == record ==> Elapsed(now, record.firstViolation) < settings.windowSecs)
  {
    if Elapsed(now, record.firstViolation) >= settings.windowSecs {
      WindowIsPast(record, log, clock, now, settings);
      AllBefore(log.hits, now);
    } else if record.bannedUntil.Some? {
      AllBefore(log.hits, now);
    }
  }

  lemma AllBefore(hits: seq<nat>, now: nat)
    requires forall t <- hits :: t < now
    ensures forall i :: 0 <= i < |hits| ==> hits[i] < now
  {
    forall i | 0 <= i < |hits|
      ensures hits[i] < now
    {
      assert hits[i] in hits;
    }
  }

  // When a window has run out, every counted violation is strictly in the past.
  lemma WindowIsPast(record: IpRecord, log: IpLog, clock: nat, now: nat, settings: Settings)
    requires settings.windowSecs > 0 && clock <= now
    requires CountOk(record, log.hits, settings.windowSecs) && TimesOk(record, log, clock)
    requires Elapsed(now, record.firstViolation) >= settings.windowSecs
    ensures forall t <- log.hits :: t < now
  {
  }

  // A counted violation that stays below the threshold.
  lemma UnpunishedOk(counted: IpRecord, log: IpLog, now: nat, settings: Settings)
    requires CountedOk(counted, log, now, settings) && counted.count < settings.threshold
    ensures RecordOk(counted, log, now, settings)
  {
  }

  lemma PunishedOk(counted: IpRecord, log: IpLog, ip: IpAddr, reason: Reason, now: nat, settings: Settings)
    requires CountedOk(counted, log, now, settings)
    ensures RecordOk(Punish(counted, ip, reason, now, settings), log.(bans := log.bans + [now]), now, settings)
  {
    RegisterKeepsOffenses(counted, log.bans, now, settings.policy.offenseDecaySecs);
    PunishKeeps(counted, ip, reason, now, settings);
  }

  // The record of an unbanned address with the violation of this moment counted.
  ghost predicate CountedOk(counted: IpRecord, log: IpLog, now: nat, settings: Settings) {
    && !HasBan(counted)
    && OffensesOk(counted, log.bans, settings.policy.offenseDecaySecs)
    && CountOk(counted, log.hits, settings.windowSecs)
    && 1 <= counted.count <= Max(1, settings.threshold)
    && counted.firstViolation <= now
    && forall t <- log.hits :: t <= now
  }

  lemma CountedOnce(record: IpRecord, log: IpLog, clock: nat, now: nat, settings: Settings)
    requires settings.windowSecs > 0 && clock <= now
    requires RecordOk(record, log, clock, settings) && !record.IsBanned(now)
    ensures var refreshed := Refreshed(record, now, settings.windowSecs);
      CountedOk(refreshed.(count := refreshed.count + 1), log.(hits := log.hits + [now]), now, settings)
  {
    CountingOk(record, log, clock, now, settings);
    var n: nat :| IsLongestRun(log.bans, settings.policy.offenseDecaySecs, n) && record.offenses == Min(n, U32_MAX);
    assert forall t <- log.hits + [now] :: t in log.hits || t == now;
  }

  lemma TrackedOk(record: IpRecord, log: IpLog, clock: nat, ip: IpAddr, reason: Reason, now: nat, settings: Settings)
    requires settings.windowSecs > 0 && clock <= now
    requires RecordOk(record, log, clock, settings) && !record.IsBanned(now)
    ensures var (after, banned) := ViolateTracked(record, ip, reason, now, settings);
      RecordOk(after,
        IpLog(if banned then log.bans + [now] else log.bans, log.hits + [now]), now, settings)
  {
    CountedOnce(record, log, clock, now, settings);
    var refreshed := Refreshed(record, now, settings.windowSecs);
    var counted := refreshed.(count := refreshed.count + 1);
    var hit := log.(hits := log.hits + [now]);
    if ViolateTracked(record, ip, reason, now, settings).1 {
      PunishedOk(counted, hit, ip, reason, now, settings);
    } else {
      UnpunishedOk(counted, hit, now, settings);
    }
  }

  lemma FreshOk(ip: IpAddr, reason: Reason, now: nat, settings: Settings)
    requires settings.windowSecs > 0
    ensures var (after, banned) := ViolateFresh(ip, reason, now, settings);
      RecordOk(after, IpLog(if banned then [now] else [], [now]), now, settings)
  {
    FreshOffenses(now, settings.policy.offenseDecaySecs);
    var hit := IpLog([], [now]);
    if ViolateFresh(ip, reason, now, settings).1 {
      PunishedOk(FreshRecord(now), hit, ip, reason, now, settings);
      assert [] + [now] == [now];
    } else {
      UnpunishedOk(FreshRecord(now), hit, now, settings);
    }
  }

  lemma OlderOk(record: IpRecord, log: IpLog, clock: nat, now: nat, settings: Settings)
    requires RecordOk(record, log, clock, settings) && clock <= now
    ensures RecordOk(record, log, now, settings)
  {
  }

  lemma RestoreKeepsOk(record: IpRecord, log: IpLog, now: nat, until: nat, settings: Settings)
    requires until > now && RecordOk(record, log, now, settings)
    ensures RecordOk(RestoreRecord(record, until), log, now, settings)
  {
  }

  lemma RestoreCreatesOk(now: nat, until: nat, settings: Settings)
    requires until > now && settings.windowSecs > 0
    ensures RecordOk(RestoreRecord(FreshRecord(now), until), IpLog([], [now]), now, settings)
  {
    FreshOffenses(now, settings.policy.offenseDecaySecs);
  }

  // The parser keeps entries whose expiry lies in the future, so a restored ban
  // always has time left.
  predicate LiveBans(op: Op) {
    op.RestoreBans? ==> forall ip <- op.bans :: op.bans[ip] > op.nowUnix
  }

  lemma CountedRecordOk(
      st: TrackerState, logs: Logs, clock: nat, ip: IpAddr, reason: Reason, now: nat, settings: Settings)
    requires settings.windowSecs > 0 && clock <= now
    requires AllOk(st, logs, clock, settings) && !Banned(st, ip, now)
    ensures var (after, banned) :=
        if ip in st.records
        then ViolateTracked(st.records[ip], ip, reason, now, settings)
        else ViolateFresh(ip, reason, now, settings);
      var log := LogOf(logs, ip);
      RecordOk(after,
        IpLog(if banned then log.bans + [now] else log.bans, log.hits + [now]), now, settings)
  {
    if ip in st.records {
      TrackedOk(st.records[ip], logs[ip], clock, ip, reason, now, settings);
    } else {
      FreshOk(ip, reason, now, settings);
      assert [] + [now] == [now];
    }
  }

  lemma CountedStepOk(st: TrackerState, logs: Logs, clock: nat, op: Op, settings: Settings)
    requires settings.windowSecs > 0 && clock <= op.at && op.Violation?
    requires AllOk(st, logs, clock, settings) && Counts(st, op.ip, op.at, settings)
    ensures var after := Apply(st, op, settings);
      && op.ip in after.records
      && RecordOk(after.records[op.ip], LogAfter(st, logs, op, settings, op.ip), op.at, settings)
  {
    CountedViolation(st, op.ip, op.reason, op.at, settings);
    CountedRecordOk(st, logs, clock, op.ip, op.reason, op.at, settings);
  }

  lemma UntouchedRecord(st: TrackerState, op: Op, settings: Settings, ip: IpAddr)
    requires op.Violation? && ip in Apply(st, op, settings).records
    requires ip != op.ip || !Counts(st, op.ip, op.at, settings)
    ensures ip in st.records && Apply(st, op, settings).records[ip] == st.records[ip]
  {
  }

  lemma ViolationStepOk(st: TrackerState, logs: Logs, clock: nat, op: Op, settings: Settings, ip: IpAddr)
    requires settings.windowSecs > 0 && clock <= op.at && op.Violation?
    requires AllOk(st, logs, clock, settings) && ip in Apply(st, op, settings).records
    ensures RecordOk(Apply(st, op, settings).records[ip], LogAfter(st, logs, op, settings, ip), op.at, settings)
  {
    if op.ip == ip && Counts(st, op.ip, op.at, settings) {
      CountedStepOk(st, logs, clock, op, settings);
    } else {
      UntouchedRecord(st, op, settings, ip);
      OlderOk(st.records[ip], logs[ip], clock, op.at, settings);
    }
  }

  lemma RestoreStepOk(st: TrackerState, logs: Logs, clock: nat, op: Op, settings: Settings, ip: IpAddr)
    requires settings.windowSecs > 0 && clock <= op.at && op.RestoreBans? && LiveBans(op)
    requires AllOk(st, logs, clock, settings) && ip in Apply(st, op, settings).records
    ensures RecordOk(Apply(st, op, settings).records[ip], LogAfter(st, logs, op, settings, ip), op.at, settings)
  {
    if ip in st.records {
      OlderOk(st.records[ip], logs[ip], clock, op.at, settings);
    }
    if |op.bans| > 0 && ip in op.bans && Representable(op.bans[ip], op.nowUnix, op.at) {
      var until := RestoredEnd(op.bans[ip], op.nowUnix, op.at);
      assert until > op.at;
      if ip in st.records {
        RestoreKeepsOk(st.records[ip], logs[ip], op.at, until, settings);
      } else {
        RestoreCreatesOk(op.at, until, settings);
      }
    }
  }

  lemma RecordStepOk(st: TrackerState, logs: Logs, clock: nat, op: Op, settings: Settings, ip: IpAddr)
    requires settings.windowSecs > 0 && clock <= op.at && LiveBans(op)
    requires AllOk(st, logs, clock, settings) && ip in Apply(st, op, settings).records
    ensures RecordOk(Apply(st, op, settings).records[ip], LogAfter(st, logs, op, settings, ip), op.at, settings)
  {
    if op.Violation? {
      ViolationStepOk(st, logs, clock, op, settings, ip);
    } else if op.RestoreBans? {
      RestoreStepOk(st, logs, clock, op, settings, ip);
    } else {
      OlderOk(st.records[ip], logs[ip], clock, op.at, settings);
    }
  }

  lemma StepOk(st: TrackerState, logs: Logs, clock: nat, op: Op, settings: Settings)
    requires settings.windowSecs > 0 && clock <= op.at && LiveBans(op)
    requires AllOk(st, logs, clock, settings)
    ensures AllOk(Apply(st, op, settings), LogsAfter(st, logs, op, settings), op.at, settings)
  {
    forall ip | ip in Apply(st, op, settings).records
      ensures RecordOk(Apply(st, op, settings).records[ip], LogsAfter(st, logs, op, settings)[ip], op.at, settings)
    {
      RecordStepOk(st, logs, clock, op, settings, ip);
    }
  }

  function EndClock(clock: nat, ops: seq<Op>): nat {
    if ops == [] then clock else ops[|ops| - 1].at
  }

  // Over every run on a monotonic clock, and for as long as a record exists:
  // `offenses` is the length of the longest suffix of the bans of its address
  // whose gaps are below the decay, `count` is the number of violations since
  // `firstViolation`, all of them inside the window, and never more than the
  // threshold.
  lemma {:induction false} RecordsMeanWhatTheySay(
      st: TrackerState, logs: Logs, clock: nat, ops: seq<Op>, settings: Settings)
    requires settings.windowSecs > 0 && InOrder(clock, ops) && forall op <- ops :: LiveBans(op)
    requires AllOk(st, logs, clock, settings)
    ensures AllOk(Run(st, ops, settings), RunLogs(st, logs, ops, settings), EndClock(clock, ops), settings)
    decreases |ops|
  {
    if ops != [] {
      StepOk(st, logs, clock, ops[0], settings);
      RecordsMeanWhatTheySay(
        Apply(st, ops[0], settings), LogsAfter(st, logs, ops[0], settings), ops[0].at, ops[1..], settings);
    }
  }

  // ------------------------------------------------------------ the ladder

  // Climbing the ladder: when a heuristic violation bans an address whose bans,
  // this one included, end in a longest run of k, the ban lasts the k-th step;
  // past the last step it is permanent.
  lemma LadderClimb(
      st: TrackerState, logs: Logs, clock: nat, ip: IpAddr, reason: Reason, now: nat, settings: Settings, k: nat)
    requires settings.windowSecs > 0 && AllOk(st, logs, clock, settings) && clock <= now
    requires TierOf(reason) == Heuristic && settings.policy.escalationEnabled
    requires forall secs <- settings.policy.escalationSteps ::
      0 < secs && now + Nanos(secs) <= MAX_INSTANT
    requires Violate(st, ip, reason, now, settings).1
    requires IsLongestRun(LogOf(logs, ip).bans + [now], settings.policy.offenseDecaySecs, k) && k <= U32_MAX
    ensures var record := Violate(st, ip, reason, now, settings).0.records[ip];
      var steps := settings.policy.escalationSteps;
      if k <= |steps|
      then !record.permanent && record.bannedUntil == Some(now + Nanos(steps[k - 1]))
      else record.permanent
  {
    PunishedRecord(st, ip, reason, now, settings);
    OffensesBefore(st, logs, clock, ip, now, settings);
    LadderStep(BeforeBan(st, ip, now, settings), LogOf(logs, ip).bans, ip, reason, now, settings, k);
  }

  // The record of an address at the moment the decision to ban it falls.
  function BeforeBan(st: TrackerState, ip: IpAddr, now: nat, settings: Settings): IpRecord {
    if ip in st.records then
      var refreshed := Refreshed(st.records[ip], now, settings.windowSecs);
      refreshed.(count := refreshed.count + 1)
    else FreshRecord(now)
  }

  lemma PunishedRecord(st: TrackerState, ip: IpAddr, reason: Reason, now: nat, settings: Settings)
    requires Violate(st, ip, reason, now, settings).1
    ensures var after := Violate(st, ip, reason, now, settings).0;
      && ip in after.records
      && after.records[ip] == Punish(BeforeBan(st, ip, now, settings), ip, reason, now, settings)
  {
  }

  lemma OffensesBefore(st: TrackerState, logs: Logs, clock: nat, ip: IpAddr, now: nat, settings: Settings)
    requires AllOk(st, logs, clock, settings)
    ensures OffensesOk(BeforeBan(st, ip, now, settings), LogOf(logs, ip).bans, settings.policy.offenseDecaySecs)
  {
    FreshOffenses(now, settings.policy.offenseDecaySecs);
  }

  lemma LadderStep(
      record: IpRecord, bans: seq<nat>, ip: IpAddr, reason: Reason, now: nat, settings: Settings, k: nat)
    requires TierOf(reason) == Heuristic && settings.policy.escalationEnabled
    requires forall secs <- settings.policy.escalationSteps ::
      0 < secs && now + Nanos(secs) <= MAX_INSTANT
    requires OffensesOk(record, bans, settings.policy.offenseDecaySecs)
    requires IsLongestRun(bans + [now], settings.policy.offenseDecaySecs, k) && k <= U32_MAX
    ensures var after := Punish(record, ip, reason, now, settings);
      var steps := settings.policy.escalationSteps;
      if k <= |steps|
      then !after.permanent && after.bannedUntil == Some(now + Nanos(steps[k - 1]))
      else after.permanent
  {
    var decay := settings.policy.offenseDecaySecs;
    RegisterKeepsOffenses(record, bans, now, decay);
    var offended := RegisterOffense(record, now, decay);
    LongestRunUnique(bans + [now], decay, offended.offenses, k);
    assert offended.offenses == k;
    LadderKind(settings, reason, ip, k);
    var steps := settings.policy.escalationSteps;
    if k <= |steps| {
      assert steps[k - 1] in steps;
      TemporaryIsExact(offended, steps[k - 1], now, now);
    }
  }

  lemma LadderKind(settings: Settings, reason: Reason, ip: IpAddr, k: u32)
    requires TierOf(reason) == Heuristic && settings.policy.escalationEnabled && k > 0
    ensures var steps := settings.policy.escalationSteps;
      settings.policy.KindFor(reason, ip, k, settings.banDurationSecs)
      == if k <= |steps| then FromSecs(steps[k - 1]) else Permanent
  {
  }

  lemma LongestRunUnique(times: seq<nat>, decay: nat, offenses: u32, k: nat)
    requires times != [] && IsLongestRun(times, decay, k) && k <= U32_MAX
    requires exists n: nat :: IsLongestRun(times, decay, n) && offenses == Min(n, U32_MAX)
    ensures offenses == k
  {
    var n: nat :| IsLongestRun(times, decay, n) && offenses == Min(n, U32_MAX);
  }

  // ------------------------------------------------------------ how history gets lost

  // A clean-up, or the sweep that an untracked address starts on a full map.
  predicate Sweeps(st: TrackerState, op: Op) {
    || op.CleanupPass?
    || (op.Violation? && op.ip !in st.records && Full(st) && Due(st.lastCapacityCleanup, op.at, 1))
  }

  // Neither banned at this moment nor inside the window of its violations.
  predicate Stale(record: IpRecord, now: nat, windowSecs: nat) {
    && !record.permanent
    && (record.bannedUntil.Some? ==> record.bannedUntil.value <= now)
    && (windowSecs == 0 || record.firstViolation + windowSecs * 1_000_000_000 <= now)
  }

  lemma StaleIsNotKept(record: IpRecord, now: nat, windowSecs: u64)
    ensures Stale(record, now, windowSecs) <==> !Kept(record, now, windowSecs)
  {
  }

  // The record of an address goes: it is swept while unbanned and with its window
  // closed, or removed by the hand-off.
  predicate Evicts(st: TrackerState, op: Op, settings: Settings, ip: IpAddr) {
    && ip in st.records
    && ((Sweeps(st, op) && Stale(st.records[ip], op.at, settings.windowSecs)) || Removes(op, ip))
  }

  predicate Evicted(st: TrackerState, ops: seq<Op>, settings: Settings, ip: IpAddr)
    decreases |ops|
  {
    ops != [] && (Evicts(st, ops[0], settings, ip) || Evicted(Apply(st, ops[0], settings), ops[1..], settings, ip))
  }

  predicate Bans(st: TrackerState, op: Op, settings: Settings, ip: IpAddr) {
    op.Violation? && op.ip == ip && Violate(st, ip, op.reason, op.at, settings).1
  }

  predicate NoBanOf(st: TrackerState, ops: seq<Op>, settings: Settings, ip: IpAddr)
    decreases |ops|
  {
    ops == [] || (!Bans(st, ops[0], settings, ip) && NoBanOf(Apply(st, ops[0], settings), ops[1..], settings, ip))
  }

  // The history of an address as it was in an earlier record, or no history.
  predicate HasHistory(st: TrackerState, ip: IpAddr, earlier: IpRecord) {
    && ip in st.records
    && st.records[ip].offenses == earlier.offenses
    && st.records[ip].lastOffense == earlier.lastOffense
  }

  predicate HasNoHistory(st: TrackerState, ip: IpAddr) {
    ip in st.records ==> st.records[ip].offenses == 0 && st.records[ip].lastOffense == None
  }

  lemma RoomRecords(st: TrackerState, now: nat, settings: Settings)
    ensures MakeRoom(st, now, settings).records ==
      if Due(st.lastCapacityCleanup, now, 1) then Sweep(st.records, now, settings.windowSecs) else st.records
  {
  }

  // What a violation does to the record of another address.
  lemma OtherRecord(st: TrackerState, op: Op, settings: Settings, ip: IpAddr)
    requires op.Violation? && op.ip != ip
    ensures var after := Apply(st, op, settings);
      && (ip in after.records <==> ip in st.records && !Evicts(st, op, settings, ip))
      && (ip in after.records ==> after.records[ip] == st.records[ip])
  {
    RoomRecords(st, op.at, settings);
    if ip in st.records {
      StaleIsNotKept(st.records[ip], op.at, settings.windowSecs);
    }
  }

  // What a violation that does not lead to a ban does to the record of its address.
  lemma OwnRecord(st: TrackerState, op: Op, settings: Settings)
    requires op.Violation? && !Bans(st, op, settings, op.ip)
    ensures var after, ip := Apply(st, op, settings), op.ip;
      if ip in st.records
      then HasHistory(after, ip, st.records[ip]) && !Evicts(st, op, settings, ip)
      else HasNoHistory(after, ip)
  {
    if Counts(st, op.ip, op.at, settings) {
      CountedViolation(st, op.ip, op.reason, op.at, settings);
    } else {
      UncountedViolation(st, op.ip, op.reason, op.at, settings);
    }
  }

  // History goes on from `before` to `after`, or is gone if the record was evicted.
  ghost predicate Carries(before: TrackerState, after: TrackerState, evicted: bool, ip: IpAddr, earlier: IpRecord) {
    && (HasHistory(before, ip, earlier) && !evicted ==> HasHistory(after, ip, earlier))
    && (HasNoHistory(before, ip) || evicted ==> HasNoHistory(after, ip))
  }

  lemma RecordCarries(before: TrackerState, after: TrackerState, evicted: bool, ip: IpAddr, earlier: IpRecord)
    requires ip in after.records <==> ip in before.records && !evicted
    requires ip in after.records ==> after.records[ip] == before.records[ip]
    ensures Carries(before, after, evicted, ip, earlier)
  {
  }

  lemma PassiveCarries(st: TrackerState, op: Op, settings: Settings, ip: IpAddr, earlier: IpRecord)
    requires !op.Violation?
    ensures Carries(st, Apply(st, op, settings), Evicts(st, op, settings, ip), ip, earlier)
  {
    if ip in st.records {
      StaleIsNotKept(st.records[ip], op.at, settings.windowSecs);
    }
  }

  lemma HistoryStep(st: TrackerState, op: Op, settings: Settings, ip: IpAddr, earlier: IpRecord)
    requires !Bans(st, op, settings, ip)
    ensures Carries(st, Apply(st, op, settings), Evicts(st, op, settings, ip), ip, earlier)
  {
    if !op.Violation? {
      PassiveCarries(st, op, settings, ip, earlier);
    } else if op.ip == ip {
      OwnRecord(st, op, settings);
    } else {
      OtherRecord(st, op, settings, ip);
      RecordCarries(st, Apply(st, op, settings), Evicts(st, op, settings, ip), ip, earlier);
    }
  }

  lemma {:induction false} HistoryThroughRun(
      st: TrackerState, ops: seq<Op>, settings: Settings, ip: IpAddr, earlier: IpRecord)
    requires NoBanOf(st, ops, settings, ip)
    ensures Carries(st, Run(st, ops, settings), Evicted(st, ops, settings, ip), ip, earlier)
    decreases |ops|
  {
    if ops != [] {
      HistoryStep(st, ops[0], settings, ip, earlier);
      HistoryThroughRun(Apply(st, ops[0], settings), ops[1..], settings, ip, earlier);
    }
  }

  // Offence history is documented to last until it has decayed; eviction looks at
  // the violation window alone. Through any run without a ban of the address, the
  // next ban, of whatever tier and within the decay, continues the history if and
  // only if no clean-up or capacity sweep found the record unbanned with its
  // window closed, and the hand-off did not remove it. Otherwise it starts over.
  lemma HistorySurvivesRun(
      st: TrackerState, ops: seq<Op>, settings: Settings, ip: IpAddr, reason: Reason, now: nat)
    requires ip in st.records && st.records[ip].lastOffense.Some?
    requires st.records[ip].offenses >= 1
    requires Elapsed(now, st.records[ip].lastOffense.value) < settings.policy.offenseDecaySecs
    requires NoBanOf(st, ops, settings, ip)
    requires Violate(Run(st, ops, settings), ip, reason, now, settings).1
    ensures var after := Violate(Run(st, ops, settings), ip, reason, now, settings).0;
      && ip in after.records
      && after.records[ip].offenses ==
           if Evicted(st, ops, settings, ip) then 1 else Min(st.records[ip].offenses + 1, U32_MAX)
  {
    var end := Run(st, ops, settings);
    HistoryThroughRun(st, ops, settings, ip, st.records[ip]);
    PunishedRecord(end, ip, reason, now, settings);
    PunishKeeps(BeforeBan(end, ip, now, settings), ip, reason, now, settings);
  }

  // A ladder of ten and twenty seconds, a window of a minute, a decay of an hour.
  const LADDER := Settings(1, 60, 0, BanPolicy(0, 0, 0, true, [10, 20], 3600))

  // Two bans, two hundred seconds apart: the second one lasts the second step,
  // but with one clean-up in between the first step again, and the counter is
  // back at one, with nearly an hour of the decay to go.
  lemma HistoryIsLost(ip: IpAddr, reason: Reason)
    requires TierOf(reason) == Heuristic
    ensures var first := Violate(EMPTY_TRACKER, ip, reason, 0, LADDER).0;
      var kept := Violate(first, ip, reason, Nanos(200), LADDER).0;
      var lost := Violate(Cleanup(first, Nanos(100), LADDER), ip, reason, Nanos(200), LADDER).0;
      && ip in kept.records && ip in lost.records
      && kept.records[ip].offenses == 2 && kept.records[ip].bannedUntil == Some(Nanos(220))
      && lost.records[ip].offenses == 1 && lost.records[ip].bannedUntil == Some(Nanos(210))
  {
    var first := Violate(EMPTY_TRACKER, ip, reason, 0, LADDER).0;
    CountedViolation(EMPTY_TRACKER, ip, reason, 0, LADDER);
    assert first.records[ip] == IpRecord(1, 0, Some(Nanos(10)), false, false, 1, Some(0));
    var cleaned := Cleanup(first, Nanos(100), LADDER);
    assert ip !in cleaned.records;
  }

  // ------------------------------------------------------------ permanent bans

  ghost predicate NonePermanent(st: TrackerState) {
    forall ip <- st.records :: !st.records[ip].permanent
  }

  // A violation whose ban, if it leads to one, cannot be permanent.
  ghost predicate OnlyTemporary(op: Op, settings: Settings) {
    op.Violation? ==> forall offenses: u32 ::
      var kind := settings.policy.KindFor(op.reason, op.ip, offenses, settings.banDurationSecs);
      kind.Temporary? && op.at + Nanos(kind.secs) <= MAX_INSTANT
  }

  lemma CountedNonePermanent(st: TrackerState, op: Op, settings: Settings)
    requires op.Violation? && NonePermanent(st) && OnlyTemporary(op, settings)
    ensures op.ip in st.records ==>
      !ViolateTracked(st.records[op.ip], op.ip, op.reason, op.at, settings).0.permanent
    ensures !ViolateFresh(op.ip, op.reason, op.at, settings).0.permanent
  {
  }

  lemma ViolationNonePermanent(st: TrackerState, op: Op, settings: Settings)
    requires op.Violation? && NonePermanent(st) && OnlyTemporary(op, settings)
    ensures NonePermanent(Apply(st, op, settings))
  {
    if Counts(st, op.ip, op.at, settings) {
      CountedViolation(st, op.ip, op.reason, op.at, settings);
      CountedNonePermanent(st, op, settings);
    } else {
      UncountedViolation(st, op.ip, op.reason, op.at, settings);
    }
  }

  lemma StepNonePermanent(st: TrackerState, op: Op, settings: Settings)
    requires NonePermanent(st) && OnlyTemporary(op, settings)
    ensures NonePermanent(Apply(st, op, settings))
  {
    if op.Violation? {
      ViolationNonePermanent(st, op, settings);
    }
  }

  lemma {:induction false} RunNonePermanent(st: TrackerState, ops: seq<Op>, settings: Settings)
    requires NonePermanent(st) && forall op <- ops :: OnlyTemporary(op, settings)
    ensures NonePermanent(Run(st, ops, settings))
    decreases |ops|
  {
    if ops != [] {
      StepNonePermanent(st, ops[0], settings);
      RunNonePermanent(Apply(st, ops[0], settings), ops[1..], settings);
    }
  }

  // The clock leaves room for the longest ban an accepted configuration issues.
  predicate ClockHasRoom(op: Op) {
    op.at + Nanos(2 * MAX_BAN_DURATION_SECS) <= MAX_INSTANT
  }

  lemma AcceptedIsTemporary(
      auto: AutoBanConfig, ipBan: IpBanConfig, sameFile: (string, string) -> bool, op: Op)
    requires auto.enabled && Accepts(auto, ipBan, sameFile) && ClockHasRoom(op)
    requires op.Violation? ==>
      || (auto.banDurationSecs != 0 && !auto.escalationEnabled)
      || (op.reason == ClientBanned && auto.clientBanDurationSecs != 0)
    ensures OnlyTemporary(op, SettingsOf(auto))
  {
    if op.Violation? {
      var settings := SettingsOf(auto);
      forall offenses: u32
        ensures var kind := settings.policy.KindFor(op.reason, op.ip, offenses, settings.banDurationSecs);
          kind.Temporary? && op.at + Nanos(kind.secs) <= MAX_INSTANT
      {
        var kind := settings.policy.KindFor(op.reason, op.ip, offenses, settings.banDurationSecs);
        AcceptedDuration(auto, ipBan, sameFile, op.reason, op.ip, offenses);
        if kind == Permanent {
          PermanentSources(settings.policy, op.reason, op.ip, offenses, settings.banDurationSecs);
        }
      }
    }
  }

  predicate OnlyClientBans(ops: seq<Op>) {
    forall op <- ops :: op.Violation? ==> op.reason == ClientBanned
  }

  // For every configuration the server accepts: a permanent record can only
  // arise when flush_to_file will look for it, so its early return strands none;
  // and then the list it is written to is named, enabled and the one reloaded.
  // Client bans alone never make one when they have a duration of their own.
  lemma ValidatorIsSound(
      auto: AutoBanConfig, ipBan: IpBanConfig, sameFile: (string, string) -> bool, ops: seq<Op>)
    requires auto.enabled && Accepts(auto, ipBan, sameFile)
    requires forall op <- ops :: ClockHasRoom(op)
    ensures var st := Run(EMPTY_TRACKER, ops, SettingsOf(auto));
      && (NothingToFlush(SettingsOf(auto)) ==> PermanentIps(st) == {})
      && (PermanentIps(st) != {} ==>
           && !NothingToFlush(SettingsOf(auto))
           && auto.banListPath != "" && ipBan.on && sameFile(auto.banListPath, ipBan.path))
      && (OnlyClientBans(ops) && auto.clientBanDurationSecs != 0 ==> PermanentIps(st) == {})
  {
    var settings := SettingsOf(auto);
    if NothingToFlush(settings) || (OnlyClientBans(ops) && auto.clientBanDurationSecs != 0) {
      forall op | op in ops
        ensures OnlyTemporary(op, settings)
      {
        AcceptedIsTemporary(auto, ipBan, sameFile, op);
      }
      RunNonePermanent(EMPTY_TRACKER, ops, settings);
    }
  }

  // ------------------------------------------------------------ capacity

  lemma SweepShrinks(records: Records, now: nat, windowSecs: u64)
    ensures |Sweep(records, now, windowSecs)| <= |records|
  {
    SubsetSize(Sweep(records, now, windowSecs).Keys, records.Keys);
  }

  // The limit the map may reach after restoring `restored` bans at start-up.
  function Ceiling(restored: nat): nat {
    Max(HARD_MAX_RECORDS, Max(restored + HEADROOM, 2 * INITIAL_MAX_RECORDS))
  }

  ghost predicate WithinLimit(st: TrackerState, ceiling: nat) {
    |st.records| <= st.maxRecords <= ceiling
  }

  lemma RestoreOnEmpty(bans: map<IpAddr, u64>, nowUnix: u64, now: nat)
    ensures WithinLimit(Restore(EMPTY_TRACKER, bans, nowUnix, now), Ceiling(|bans|))
  {
    SubsetSize(RestoredRecords(map[], bans, nowUnix, now).Keys, bans.Keys);
  }

  lemma RoomWithinLimit(st: TrackerState, now: nat, settings: Settings, ceiling: nat)
    requires WithinLimit(st, ceiling) && ceiling >= HARD_MAX_RECORDS
    ensures var room := MakeRoom(st, now, settings);
      WithinLimit(room, ceiling) && room.maxRecords >= st.maxRecords
  {
    SweepShrinks(st.records, now, settings.windowSecs);
  }

  lemma TrackWithinLimit(st: TrackerState, ip: IpAddr, reason: Reason, now: nat, settings: Settings, ceiling: nat)
    requires WithinLimit(st, ceiling) && (ip in st.records || !Full(st))
    ensures var after := Track(st, ip, reason, now, settings).0;
      WithinLimit(after, ceiling) && after.maxRecords == st.maxRecords
  {
  }

  lemma ViolationWithinLimit(
      st: TrackerState, ip: IpAddr, reason: Reason, now: nat, settings: Settings, ceiling: nat)
    requires WithinLimit(st, ceiling) && ceiling >= HARD_MAX_RECORDS
    ensures var after := Violate(st, ip, reason, now, settings).0;
      WithinLimit(after, ceiling) && after.maxRecords >= st.maxRecords
  {
    RoomWithinLimit(st, now, settings, ceiling);
    if Counts(st, ip, now, settings) {
      var room := if ip !in st.records && Full(st) then MakeRoom(st, now, settings) else st;
      TrackWithinLimit(room, ip, reason, now, settings, ceiling);
    }
  }

  lemma StepWithinLimit(st: TrackerState, op: Op, settings: Settings, ceiling: nat)
    requires WithinLimit(st, ceiling) && ceiling >= HARD_MAX_RECORDS && !op.RestoreBans?
    ensures var after := Apply(st, op, settings);
      WithinLimit(after, ceiling) && after.maxRecords >= st.maxRecords
  {
    match op
    case Violation(ip, reason, at) => ViolationWithinLimit(st, ip, reason, at, settings, ceiling);
    case CleanupPass(at) => SweepShrinks(st.records, at, settings.windowSecs);
    case MarkedWritten(ips, _) => assert Apply(st, op, settings).records.Keys == st.records.Keys;
    case Removal(ips, _) => SubsetSize((st.records - ips).Keys, st.records.Keys);
    case RestoreBans(_, _, _) =>
  }

  // With bans restored once, at start-up, the map never outgrows its limit, the
  // limit never shrinks and never passes its ceiling.
  lemma {:induction false} LimitHolds(st: TrackerState, ops: seq<Op>, settings: Settings, ceiling: nat)
    requires WithinLimit(st, ceiling) && ceiling >= HARD_MAX_RECORDS
    requires forall op <- ops :: !op.RestoreBans?
    ensures WithinLimit(Run(st, ops, settings), ceiling)
    ensures Run(st, ops, settings).maxRecords >= st.maxRecords
    decreases |ops|
  {
    if ops != [] {
      StepWithinLimit(st, ops[0], settings, ceiling);
      LimitHolds(Apply(st, ops[0], settings), ops[1..], settings, ceiling);
    }
  }

  // How many violations of untracked addresses are turned away before the limit
  // has reached the hard cap.
  function EarlyRefusals(st: TrackerState, ops: seq<Op>, settings: Settings): nat
    decreases |ops|
  {
    if ops == [] then 0
    else
      var refused :=
        && ops[0].Violation?
        && Refuses(st, ops[0].ip, ops[0].at, settings)
        && st.maxRecords < HARD_MAX_RECORDS;
      (if refused then 1 else 0) + EarlyRefusals(Apply(st, ops[0], settings), ops[1..], settings)
  }

  function DoublingsLeft(limit: nat): nat {
    if limit >= 2_000_000 then 0
    else if limit >= 1_000_000 then 1
    else if limit >= 500_000 then 2
    else if limit >= 250_000 then 3
    else if limit >= 125_000 then 4
    else 5
  }

  // A refusal below the cap pays for itself: it doubles the limit.
  lemma RefusalDoubles(st: TrackerState, ip: IpAddr, reason: Reason, now: nat, settings: Settings)
    requires Refuses(st, ip, now, settings) && INITIAL_MAX_RECORDS <= st.maxRecords < HARD_MAX_RECORDS
    ensures var after := Violate(st, ip, reason, now, settings).0;
      after.maxRecords == Min(2 * st.maxRecords, HARD_MAX_RECORDS)
  {
  }

  lemma StepKeepsLimit(st: TrackerState, op: Op, settings: Settings)
    ensures Apply(st, op, settings).maxRecords >= st.maxRecords
  {
  }

  // Growing costs at most five violations, from whatever state the tracker is in.
  lemma {:induction false} FewEarlyRefusals(st: TrackerState, ops: seq<Op>, settings: Settings)
    requires st.maxRecords >= INITIAL_MAX_RECORDS
    ensures EarlyRefusals(st, ops, settings) <= DoublingsLeft(st.maxRecords) <= 5
    decreases |ops|
  {
    if ops != [] {
      var op := ops[0];
      StepKeepsLimit(st, op, settings);
      if op.Violation? && Refuses(st, op.ip, op.at, settings) && st.maxRecords < HARD_MAX_RECORDS {
        RefusalDoubles(st, op.ip, op.reason, op.at, settings);
      }
      FewEarlyRefusals(Apply(st, op, settings), ops[1..], settings);
    }
  }

  // At the hard cap the guard means to log once a minute, but the sweep in front
  // of it ran less than a second ago or just now: that branch is never taken.
  lemma HardCapLogIsDead(st: TrackerState, now: nat, settings: Settings)
    ensures !Due(SweepIfDue(st, now, settings).lastCapacityCleanup, now, 60)
  {
  }
}
