// Which violations lead to a ban, and to which: told by the fields of the
// configuration, by the reason and by what happened to the address before.
module BanKinds {
  import opened Base
  import opened Ip
  import opened Policy
  import opened Tracker
  import opened BanRuns

  // A ban of so many seconds from this moment on. Zero seconds, like an end that
  // the clock cannot represent, mean for good.
  predicate Lasts(record: IpRecord, now: nat, secs: nat) {
    if secs == 0 || now + secs * 1_000_000_000 > MAX_INSTANT then record.permanent
    else !record.permanent && record.bannedUntil == Some(now + secs * 1_000_000_000)
  }

  // The reasons that ban at the first violation.
  predicate IsGrave(reason: Reason) {
    reason in {SqlInjection, PathTraversal, Crawler, MissingUserAgent, ClientBanned}
  }

  function FirstNonZero(a: u64, b: u64, c: u64): u64 {
    if a != 0 then a else if b != 0 then b else c
  }

  // Within the jitter of the base, and never less than a second.
  ghost predicate LastsAbout(record: IpRecord, now: nat, base: nat, jitter: nat) {
    exists secs: nat ::
      base - jitter <= secs <= base + jitter && secs >= 1 && Lasts(record, now, secs)
  }

  // The ban a violation for this reason gets, the k-th in a row of its address.
  ghost predicate IsBanFor(config: AutoBanConfig, reason: Reason, k: nat, record: IpRecord, now: nat) {
    match reason
    case SqlInjection | PathTraversal | Crawler | MissingUserAgent =>
      if config.escalationEnabled && k >= 2 then record.permanent
      else Lasts(record, now, FirstNonZero(config.immediateBanSecs, config.banDurationSecs, 0))
    case PrivateIp => Lasts(record, now, config.banDurationSecs)
    case NonStandardPeerId | PeerIdUserAgentMismatch =>
      var steps := ParseSteps(config.escalationSteps);
      var rung := Min(k, U32_MAX);
      if !config.escalationEnabled then Lasts(record, now, config.banDurationSecs)
      else if 1 <= rung <= |steps| then Lasts(record, now, steps[rung - 1])
      else record.permanent
    case ClientBanned =>
      var base := FirstNonZero(config.clientBanDurationSecs, config.immediateBanSecs, config.banDurationSecs);
      if base == 0 then record.permanent
      else LastsAbout(record, now, base, config.clientBanJitterSecs)
  }

  // ------------------------------------------------------------ the kind of a ban

  lemma AppliedLasts(record: IpRecord, secs: u64, now: nat)
    ensures Lasts(ApplyBan(record, FromSecs(secs), now), now, secs)
    ensures ApplyBan(record, Permanent, now).permanent
  {
  }

  lemma ClientBanIsAbout(config: AutoBanConfig, record: IpRecord, ip: IpAddr, offenses: u32, now: nat)
    ensures var kind := PolicyOf(config).KindFor(ClientBanned, ip, offenses, config.banDurationSecs);
      IsBanFor(config, ClientBanned, offenses, ApplyBan(record, kind, now), now)
  {
    var policy := PolicyOf(config);
    var secs := policy.ClientBanSecs(ip, config.banDurationSecs);
    ClientBanLength(policy, ip, config.banDurationSecs);
    AppliedLasts(record, secs, now);
  }

  lemma KindIsRight(
      config: AutoBanConfig, reason: Reason, record: IpRecord, ip: IpAddr, offenses: u32, k: nat, now: nat)
    requires offenses == Min(k, U32_MAX) && k >= 1
    ensures var kind := PolicyOf(config).KindFor(reason, ip, offenses, config.banDurationSecs);
      IsBanFor(config, reason, k, ApplyBan(record, kind, now), now)
  {
    if reason == ClientBanned {
      ClientBanIsAbout(config, record, ip, offenses, now);
    }
  }

  lemma RowIsCounted(record: IpRecord, bans: seq<nat>, now: nat, decay: u64, k: nat)
    requires OffensesOk(record, bans, decay) && IsLongestRun(bans + [now], decay, k)
    ensures k >= 1 && RegisterOffense(record, now, decay).offenses == Min(k, U32_MAX)
  {
    RegisterKeepsOffenses(record, bans, now, decay);
    var n: nat :| IsLongestRun(bans + [now], decay, n) &&
      RegisterOffense(record, now, decay).offenses == Min(n, U32_MAX);
    LongestRunIsOne(bans + [now], decay, n, k);
  }

  lemma LongestRunIsOne(times: seq<nat>, decay: nat, m: nat, n: nat)
    requires IsLongestRun(times, decay, m) && IsLongestRun(times, decay, n)
    ensures m == n
  {
  }

  // The ban that is given. When a violation bans an address whose bans, this one
  // included, end in k in a row, each less than the decay after the one before:
  // - for an attack or a crawler it lasts `immediateBanSecs`, or the default if
  //   that is zero, and is for good from the second in a row on under escalation;
  // - for a private address it lasts the default;
  // - for an odd client it lasts the k-th step of the ladder, is for good past the
  //   last, and lasts the default without escalation;
  // - for a client on the black list it lasts the first of its three durations that
  //   is not zero, give or take the jitter.
  lemma BanGiven(
      config: AutoBanConfig, st: TrackerState, logs: Logs, clock: nat, ip: IpAddr, reason: Reason, now: nat, k: nat)
    requires AllOk(st, logs, clock, SettingsOf(config))
    requires Violate(st, ip, reason, now, SettingsOf(config)).1
    requires IsLongestRun(LogOf(logs, ip).bans + [now], config.offenseDecaySecs, k)
    ensures var after := Violate(st, ip, reason, now, SettingsOf(config)).0;
      ip in after.records && IsBanFor(config, reason, k, after.records[ip], now)
  {
    var settings := SettingsOf(config);
    var before := BeforeBan(st, ip, now, settings);
    PunishedRecord(st, ip, reason, now, settings);
    OffensesBefore(st, logs, clock, ip, now, settings);
    RowIsCounted(before, LogOf(logs, ip).bans, now, config.offenseDecaySecs, k);
    var offended := RegisterOffense(before, now, config.offenseDecaySecs);
    KindIsRight(config, reason, offended, ip, offended.offenses, k, now);
  }

  // For IPv4 clients and a jitter that is an i64 the length is known to the
  // second: the address, read as a number, picks its place in the spread.
  lemma ClientBanOfV4(
      config: AutoBanConfig, st: TrackerState, bits: Bits32, now: nat)
    requires config.clientBanJitterSecs <= I64_MAX
    requires Violate(st, V4(bits), ClientBanned, now, SettingsOf(config)).1
    ensures var base := FirstNonZero(config.clientBanDurationSecs, config.immediateBanSecs, config.banDurationSecs);
      var jitter := config.clientBanJitterSecs;
      var after := Violate(st, V4(bits), ClientBanned, now, SettingsOf(config)).0;
      base != 0 ==> (
        && V4(bits) in after.records
        && Lasts(after.records[V4(bits)], now, Min(U64_MAX, Max(1, base + bits % (2 * jitter + 1) - jitter))))
  {
    var settings, ip := SettingsOf(config), V4(bits);
    PunishedRecord(st, ip, ClientBanned, now, settings);
    JitterOfBounded(bits, config.clientBanJitterSecs);
    V4Spread(PolicyOf(config), bits, config.banDurationSecs);
    var offended := RegisterOffense(BeforeBan(st, ip, now, settings), now, config.offenseDecaySecs);
    AppliedLasts(offended, PolicyOf(config).ClientBanSecs(ip, config.banDurationSecs), now);
  }

  lemma V4Spread(policy: BanPolicy, bits: Bits32, fallbackSecs: u64)
    requires policy.clientBanJitterSecs <= I64_MAX
    ensures var base := FirstNonZero(policy.clientBanDurationSecs, policy.immediateBanSecs, fallbackSecs);
      var jitter := policy.clientBanJitterSecs;
      base != 0 ==>
        policy.ClientBanSecs(V4(bits), fallbackSecs)
        == Min(U64_MAX, Max(1, base + bits % (2 * jitter + 1) - jitter))
  {
    JitterOfBounded(bits, policy.clientBanJitterSecs);
    if policy.clientBanJitterSecs == 0 {
      assert bits % 1 == 0;
    }
  }

  // ------------------------------------------------------------ when a violation bans

  // `record_violation` answers true exactly for an address that is not banned and
  // not turned away by the capacity guard, when the reason is grave or the
  // violations in its window have reached the threshold.
  lemma BansExactlyWhen(config: AutoBanConfig, st: TrackerState, ip: IpAddr, reason: Reason, now: nat)
    ensures var settings := SettingsOf(config);
      var (after, banned) := Violate(st, ip, reason, now, settings);
      banned <==>
        && !Banned(st, ip, now) && !Refuses(st, ip, now, settings)
        && ip in after.records
        && (IsGrave(reason) || after.records[ip].count >= config.threshold)
  {
    var settings := SettingsOf(config);
    if Counts(st, ip, now, settings) {
      CountedViolation(st, ip, reason, now, settings);
      GraveIsImmediate(reason);
      if ip in st.records {
        TrackedAnswer(st.records[ip], ip, reason, now, settings);
      }
    } else {
      UncountedViolation(st, ip, reason, now, settings);
    }
  }

  lemma GraveIsImmediate(reason: Reason)
    ensures TierOf(reason) == Immediate <==> IsGrave(reason)
  {
  }

  lemma TrackedAnswer(record: IpRecord, ip: IpAddr, reason: Reason, now: nat, settings: Settings)
    requires !record.IsBanned(now)
    ensures var (after, banned) := ViolateTracked(record, ip, reason, now, settings);
      banned <==> TierOf(reason) == Immediate || after.count >= settings.threshold
  {
    var refreshed := Refreshed(record, now, settings.windowSecs);
    var counted := refreshed.(count := refreshed.count + 1);
    PunishKeeps(counted, ip, reason, now, settings);
  }

  // The records a full map is left with: all of them, unless its last sweep is a
  // second ago; then those that are not stale.
  ghost function Remaining(st: TrackerState, now: nat, windowSecs: nat): set<IpAddr> {
    set ip | ip in st.records && (
      || (st.lastCapacityCleanup.Some? && now < st.lastCapacityCleanup.value + 1_000_000_000)
      || !Stale(st.records[ip], now, windowSecs))
  }

  // The capacity guard turns away an untracked address exactly if the map is full
  // and the sweep does not get it below the limit it had; that the limit grows then
  // is of no use to this address.
  lemma RefusedExactlyWhen(st: TrackerState, ip: IpAddr, now: nat, settings: Settings)
    ensures Refuses(st, ip, now, settings) <==>
      && ip !in st.records && |st.records| >= st.maxRecords
      && |Remaining(st, now, settings.windowSecs)| >= st.maxRecords
  {
    var swept := SweepIfDue(st, now, settings).records;
    forall other
      ensures other in swept <==> other in Remaining(st, now, settings.windowSecs)
    {
      if other in st.records {
        StaleIsNotKept(st.records[other], now, settings.windowSecs);
      }
    }
    assert swept.Keys == Remaining(st, now, settings.windowSecs);
  }

  // The window of a record is open at this moment.
  predicate WindowOpen(record: IpRecord, now: nat, windowSecs: nat) {
    windowSecs > 0 && now < record.firstViolation + windowSecs * 1_000_000_000
  }

  // How violations are counted: one more while the window is open and no ban has
  // run out since; otherwise the count and the window begin anew.
  lemma CountGoesOn(st: TrackerState, ip: IpAddr, reason: Reason, now: nat, settings: Settings)
    requires Counts(st, ip, now, settings)
    ensures var after := Violate(st, ip, reason, now, settings).0;
      && ip in after.records
      && if ip in st.records && WindowOpen(st.records[ip], now, settings.windowSecs)
            && st.records[ip].bannedUntil == None
         then after.records[ip].count == st.records[ip].count + 1
              && after.records[ip].firstViolation == st.records[ip].firstViolation
         else after.records[ip].count == 1 && after.records[ip].firstViolation == now
  {
    CountedViolation(st, ip, reason, now, settings);
    if ip in st.records {
      var record := st.records[ip];
      var refreshed := Refreshed(record, now, settings.windowSecs);
      PunishKeeps(refreshed.(count := refreshed.count + 1), ip, reason, now, settings);
      OpenIsElapsed(record, now, settings.windowSecs);
    } else {
      PunishKeeps(FreshRecord(now), ip, reason, now, settings);
    }
  }

  lemma OpenIsElapsed(record: IpRecord, now: nat, windowSecs: nat)
    ensures WindowOpen(record, now, windowSecs) <==> Elapsed(now, record.firstViolation) < windowSecs
  {
  }

  // ------------------------------------------------------------ reaching the threshold

  // Violations of one address at these times, for reasons that are not grave.
  predicate MildAt(ops: seq<Op>, ip: IpAddr, times: seq<nat>) {
    && |ops| == |times|
    && forall i :: 0 <= i < |ops| ==>
         ops[i].Violation? && ops[i].ip == ip && ops[i].at == times[i] && !IsGrave(ops[i].reason)
  }

  // The record of an address that has had this many mild violations since `first`.
  predicate Watched(st: TrackerState, ip: IpAddr, first: nat, count: nat) {
    && ip in st.records
    && st.records[ip].count == count && st.records[ip].firstViolation == first
    && !st.records[ip].permanent && st.records[ip].bannedUntil == None
  }

  lemma MildStep(config: AutoBanConfig, st: TrackerState, op: Op, first: nat, count: nat)
    requires op.Violation? && !IsGrave(op.reason) && Watched(st, op.ip, first, count)
    requires config.windowSecs > 0 && op.at < first + config.windowSecs * 1_000_000_000
    requires count + 1 < config.threshold
    ensures Watched(Apply(st, op, SettingsOf(config)), op.ip, first, count + 1)
  {
    var settings := SettingsOf(config);
    CountGoesOn(st, op.ip, op.reason, op.at, settings);
    BansExactlyWhen(config, st, op.ip, op.reason, op.at);
    CountedViolation(st, op.ip, op.reason, op.at, settings);
    GraveIsImmediate(op.reason);
  }

  lemma {:induction false} MildRun(
      config: AutoBanConfig, st: TrackerState, ops: seq<Op>, ip: IpAddr, times: seq<nat>, first: nat, count: nat)
    requires MildAt(ops, ip, times) && Watched(st, ip, first, count)
    requires config.windowSecs > 0
    requires forall t <- times :: t < first + config.windowSecs * 1_000_000_000
    requires count + |ops| < config.threshold
    ensures Watched(Run(st, ops, SettingsOf(config)), ip, first, count + |ops|)
    decreases |ops|
  {
    if ops != [] {
      assert times[0] in times && forall t <- times[1..] :: t in times;
      assert MildAt(ops[1..], ip, times[1..]);
      MildStep(config, st, ops[0], first, count);
      MildRun(config, Apply(st, ops[0], SettingsOf(config)), ops[1..], ip, times[1..], first, count + 1);
    }
  }

  // An address that was not tracked and is not turned away: mild violations within
  // one window do not ban it before the one that reaches the threshold, and that
  // one does.
  lemma ThresholdBans(
      config: AutoBanConfig, st: TrackerState, ip: IpAddr, first: Reason, at: nat, ops: seq<Op>, times: seq<nat>,
      last: Reason, now: nat)
    requires config.windowSecs > 0 && ip !in st.records && !Refuses(st, ip, at, SettingsOf(config))
    requires !IsGrave(first) && !IsGrave(last) && MildAt(ops, ip, times)
    requires forall t <- times + [now] :: t < at + config.windowSecs * 1_000_000_000
    requires config.threshold == |ops| + 2
    ensures var settings := SettingsOf(config);
      var watched := Run(Violate(st, ip, first, at, settings).0, ops, settings);
      Watched(watched, ip, at, |ops| + 1) && Violate(watched, ip, last, now, settings).1
  {
    var settings := SettingsOf(config);
    CountGoesOn(st, ip, first, at, settings);
    CountedViolation(st, ip, first, at, settings);
    GraveIsImmediate(first);
    var tracked := Violate(st, ip, first, at, settings).0;
    assert forall t <- times :: t in times + [now];
    MildRun(config, tracked, ops, ip, times, at, 1);
    var watched := Run(tracked, ops, settings);
    assert now in times + [now];
    CountGoesOn(watched, ip, last, now, settings);
    BansExactlyWhen(config, watched, ip, last, now);
  }

  // ------------------------------------------------------------ accepted configurations

  lemma MildCount(
      config: AutoBanConfig, st: TrackerState, logs: Logs, clock: nat, ip: IpAddr, reason: Reason, now: nat)
    requires config.threshold > 0 && config.windowSecs > 0
    requires AllOk(st, logs, clock, SettingsOf(config)) && clock <= now
    requires !IsGrave(reason) && Violate(st, ip, reason, now, SettingsOf(config)).1
    ensures var after := Violate(st, ip, reason, now, SettingsOf(config)).0;
      ip in after.records && after.records[ip].count == config.threshold
  {
    BansExactlyWhen(config, st, ip, reason, now);
    CountedStepOk(st, logs, clock, Violation(ip, reason, now), SettingsOf(config));
  }

  // What the validator's bounds are good for. In every run of an accepted
  // configuration the records mean what they say, and a mild ban falls on exactly
  // the threshold-th violation of its window.
  lemma AcceptedRuns(
      auto: AutoBanConfig, ipBan: IpBanConfig, sameFile: (string, string) -> bool, ops: seq<Op>,
      ip: IpAddr, reason: Reason, now: nat)
    requires auto.enabled && Accepts(auto, ipBan, sameFile)
    requires InOrder(0, ops + [Violation(ip, reason, now)]) && forall op <- ops :: LiveBans(op)
    ensures var settings := SettingsOf(auto);
      var st, logs := Run(EMPTY_TRACKER, ops, settings), RunLogs(EMPTY_TRACKER, map[], ops, settings);
      && AllOk(st, logs, EndClock(0, ops), settings)
      && var (after, banned) := Violate(st, ip, reason, now, settings);
         (banned && !IsGrave(reason) ==> ip in after.records && after.records[ip].count == auto.threshold)
  {
    var settings := SettingsOf(auto);
    OrderOfFront(0, ops, Violation(ip, reason, now));
    RecordsMeanWhatTheySay(EMPTY_TRACKER, map[], 0, ops, settings);
    var st, logs := Run(EMPTY_TRACKER, ops, settings), RunLogs(EMPTY_TRACKER, map[], ops, settings);
    if !IsGrave(reason) && Violate(st, ip, reason, now, settings).1 {
      MildCount(auto, st, logs, EndClock(0, ops), ip, reason, now);
    }
  }

  // And under escalation two bans less than a second apart are always in a row: no
  // accepted configuration forgets at once.
  lemma AcceptedRemembers(
      auto: AutoBanConfig, ipBan: IpBanConfig, sameFile: (string, string) -> bool, bans: seq<nat>, now: nat, k: nat)
    requires auto.enabled && auto.escalationEnabled && Accepts(auto, ipBan, sameFile)
    requires bans != [] && bans[|bans| - 1] <= now < bans[|bans| - 1] + 1_000_000_000
    requires IsLongestRun(bans + [now], auto.offenseDecaySecs, k)
    ensures k >= 2
  {
    assert Elapsed(now, bans[|bans| - 1]) == 0;
  }

  lemma {:induction false} OrderOfFront(clock: nat, ops: seq<Op>, op: Op)
    requires InOrder(clock, ops + [op])
    ensures InOrder(clock, ops) && EndClock(clock, ops) <= op.at
    decreases |ops|
  {
    if ops != [] {
      assert (ops + [op])[1..] == ops[1..] + [op];
      OrderOfFront(ops[0].at, ops[1..], op);
    }
  }
}
