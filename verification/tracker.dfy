// The per-address ban state machine. Each section the program runs under its
// record lock is one function from state to state; the class performs the same
// section in place.
module Tracker {
  import opened Base
  import opened Ip
  import opened Policy

  // Instants of the monotonic clock, in nanoseconds.
  function Nanos(secs: nat): nat {
    secs * 1_000_000_000
  }

  function WholeSecs(nanos: nat): nat {
    nanos / 1_000_000_000
  }

  // A timespec counts seconds in an i64.
  const MAX_INSTANT := 0x8000_0000_0000_0000 * 1_000_000_000 - 1

  const HARD_MAX_RECORDS := 2_000_000
  const INITIAL_MAX_RECORDS := 100_000
  const HEADROOM := 100_000

  // `duration_since(..).as_secs()`
  function Elapsed(now: nat, earlier: nat): nat {
    if now < earlier then 0 else WholeSecs(now - earlier)
  }

  // A rate limit: never done, or last done at least `secs` ago.
  predicate Due(last: Option<nat>, now: nat, secs: nat) {
    match last
    case None => true
    case Some(at) => Elapsed(now, at) >= secs
  }

  datatype IpRecord = IpRecord(
    count: nat,
    firstViolation: nat,
    bannedUntil: Option<nat>,
    permanent: bool,
    persisted: bool,
    offenses: u32,
    lastOffense: Option<nat>)
  {
    predicate IsBanned(now: nat) {
      permanent || (bannedUntil.Some? && now < bannedUntil.value)
    }
  }

  function FreshRecord(now: nat): IpRecord {
    IpRecord(1, now, None, false, false, 0, None)
  }

  function RegisterOffense(record: IpRecord, now: nat, decaySecs: u64): IpRecord {
    var history := if Due(record.lastOffense, now, decaySecs) then 0 else record.offenses;
    record.(offenses := Min(history + 1, U32_MAX), lastOffense := Some(now))
  }

  // A ban whose end the clock cannot represent degrades to a permanent one.
  function ApplyBan(record: IpRecord, kind: BanKind, now: nat): IpRecord {
    if kind.Temporary? && now + Nanos(kind.secs) <= MAX_INSTANT
    then record.(bannedUntil := Some(now + Nanos(kind.secs)), permanent := false, persisted := false)
    else record.(bannedUntil := None, permanent := true, persisted := false)
  }

  datatype Settings = Settings(
    threshold: u32,
    windowSecs: u64,
    banDurationSecs: u64,
    policy: BanPolicy)

  function SettingsOf(config: AutoBanConfig): Settings {
    Settings(config.threshold, config.windowSecs, config.banDurationSecs, PolicyOf(config))
  }

  function Punish(record: IpRecord, ip: IpAddr, reason: Reason, now: nat, settings: Settings): IpRecord {
    var offended := RegisterOffense(record, now, settings.policy.offenseDecaySecs);
    var kind := settings.policy.KindFor(reason, ip, offended.offenses, settings.banDurationSecs);
    ApplyBan(offended, kind, now)
  }

  // The record as a violation finds it: a window that has run out restarts the
  // count, and so does a ban that has expired.
  function Refreshed(record: IpRecord, now: nat, windowSecs: u64): IpRecord {
    var windowed :=
      if Elapsed(now, record.firstViolation) >= windowSecs
      then record.(count := 0, firstViolation := now)
      else record;
    if !windowed.permanent && windowed.bannedUntil.Some? && now >= windowed.bannedUntil.value
    then windowed.(bannedUntil := None, persisted := false, count := 0, firstViolation := now)
    else windowed
  }

  // One more violation of a tracked address: the new record, and whether it was
  // banned.
  function ViolateTracked(
      record: IpRecord, ip: IpAddr, reason: Reason, now: nat, settings: Settings): (IpRecord, bool)
  {
    var refreshed := Refreshed(record, now, settings.windowSecs);
    var counted := refreshed.(count := refreshed.count + 1);
    if (TierOf(reason) == Immediate || counted.count >= settings.threshold) && !counted.IsBanned(now)
    then (Punish(counted, ip, reason, now, settings), true)
    else (counted, false)
  }

  // The first violation of an untracked address.
  function ViolateFresh(
      ip: IpAddr, reason: Reason, now: nat, settings: Settings): (IpRecord, bool)
  {
    if TierOf(reason) == Immediate || settings.threshold <= 1
    then (Punish(FreshRecord(now), ip, reason, now, settings), true)
    else (FreshRecord(now), false)
  }

  type Records = map<IpAddr, IpRecord>

  datatype TrackerState = TrackerState(
    records: Records,
    maxRecords: nat,
    lastCapacityCleanup: Option<nat>,
    lastOverflowLog: Option<nat>)

  const EMPTY_TRACKER := TrackerState(map[], INITIAL_MAX_RECORDS, None, None)

  predicate Banned(st: TrackerState, ip: IpAddr, now: nat) {
    ip in st.records && st.records[ip].IsBanned(now)
  }

  predicate Kept(record: IpRecord, now: nat, windowSecs: u64) {
    record.IsBanned(now) || Elapsed(now, record.firstViolation) < windowSecs
  }

  function Sweep(records: Records, now: nat, windowSecs: u64): Records {
    map ip | ip in records && Kept(records[ip], now, windowSecs) :: records[ip]
  }

  function Cleanup(st: TrackerState, now: nat, settings: Settings): TrackerState {
    st.(records := Sweep(st.records, now, settings.windowSecs))
  }

  predicate Full(st: TrackerState) {
    |st.records| >= st.maxRecords
  }

  function SweepIfDue(st: TrackerState, now: nat, settings: Settings): TrackerState {
    if Due(st.lastCapacityCleanup, now, 1)
    then Cleanup(st, now, settings).(lastCapacityCleanup := Some(now))
    else st
  }

  function Grow(st: TrackerState, now: nat): TrackerState {
    var grown := Min(st.maxRecords * 2, HARD_MAX_RECORDS);
    if grown > st.maxRecords then st.(maxRecords := grown)
    else if Due(st.lastCapacityCleanup, now, 60) then st.(lastCapacityCleanup := Some(now))
    else st
  }

  // The capacity guard, entered when an untracked address meets a full map.
  function MakeRoom(st: TrackerState, now: nat, settings: Settings): TrackerState {
    var swept := SweepIfDue(st, now, settings);
    if Full(swept) then Grow(swept, now) else swept
  }

  // The guard compares with the limit read before it grew it, so the violation
  // that makes the map grow is itself not tracked.
  predicate Refuses(st: TrackerState, ip: IpAddr, now: nat, settings: Settings) {
    && ip !in st.records
    && Full(st)
    && |SweepIfDue(st, now, settings).records| >= st.maxRecords
  }

  function Track(st: TrackerState, ip: IpAddr, reason: Reason, now: nat, settings: Settings): (TrackerState, bool) {
    var (record, banned) :=
      if ip in st.records
      then ViolateTracked(st.records[ip], ip, reason, now, settings)
      else ViolateFresh(ip, reason, now, settings);
    (st.(records := st.records[ip := record]), banned)
  }

  // `record_violation`: the new state, and whether the address was banned now.
  function Violate(st: TrackerState, ip: IpAddr, reason: Reason, now: nat, settings: Settings): (TrackerState, bool) {
    if Banned(st, ip, now) then (st, false)
    else
      var room := if ip !in st.records && Full(st) then MakeRoom(st, now, settings) else st;
      if Refuses(st, ip, now, settings)
      then
        (if Due(room.lastOverflowLog, now, 60) then room.(lastOverflowLog := Some(now)) else room, false)
      else Track(room, ip, reason, now, settings)
  }

  // ------------------------------------------------------------ restored bans

  // Later of the two ends; a permanent ban stays permanent.
  function RestoreRecord(record: IpRecord, until: nat): IpRecord {
    if !record.permanent && (record.bannedUntil.None? || until > record.bannedUntil.value)
    then record.(bannedUntil := Some(until), persisted := false)
    else record
  }

  function RestoredEnd(expire: u64, nowUnix: u64, now: nat): nat {
    now + Nanos(SatSub(expire, nowUnix))
  }

  predicate Representable(expire: u64, nowUnix: u64, now: nat) {
    RestoredEnd(expire, nowUnix, now) <= MAX_INSTANT
  }

  function RestoredRecords(records: Records, bans: map<IpAddr, u64>, nowUnix: u64, now: nat): Records {
    map ip | ip in records.Keys + bans.Keys &&
             (ip in records || Representable(bans[ip], nowUnix, now)) ::
      var record := if ip in records then records[ip] else FreshRecord(now);
      if ip in bans && Representable(bans[ip], nowUnix, now)
      then RestoreRecord(record, RestoredEnd(bans[ip], nowUnix, now))
      else record
  }

  function RestoreOne(records: Records, ip: IpAddr, expire: u64, nowUnix: u64, now: nat): Records {
    if Representable(expire, nowUnix, now) then
      var record := if ip in records then records[ip] else FreshRecord(now);
      records[ip := RestoreRecord(record, RestoredEnd(expire, nowUnix, now))]
    else records
  }

  lemma RestoreOneMore(
      records: Records, bans: map<IpAddr, u64>, ip: IpAddr, expire: u64, nowUnix: u64, now: nat)
    requires ip !in bans
    ensures RestoredRecords(records, bans[ip := expire], nowUnix, now)
         == RestoreOne(RestoredRecords(records, bans, nowUnix, now), ip, expire, nowUnix, now)
  {
  }

  lemma RestoreNone(records: Records, nowUnix: u64, now: nat)
    ensures RestoredRecords(records, map[], nowUnix, now) == records
  {
  }

  // `load_client_bans`, given the parsed file.
  function Restore(st: TrackerState, bans: map<IpAddr, u64>, nowUnix: u64, now: nat): TrackerState {
    if |bans| == 0 then st
    else st.(
      records := RestoredRecords(st.records, bans, nowUnix, now),
      maxRecords := Max(st.maxRecords, |bans|) + HEADROOM)
  }

  // ------------------------------------------------------------ the flush sections

  predicate IsPermanent(st: TrackerState, ip: IpAddr) {
    ip in st.records && st.records[ip].permanent
  }

  predicate IsUnwritten(st: TrackerState, ip: IpAddr) {
    ip in st.records && st.records[ip].permanent && !st.records[ip].persisted
  }

  // The early return of `flush_to_file`.
  predicate NothingToFlush(settings: Settings) {
    settings.banDurationSecs != 0 && !settings.policy.escalationEnabled
  }

  function PermanentIps(st: TrackerState): set<IpAddr> {
    set ip | ip in st.records && st.records[ip].permanent
  }

  function UnwrittenIps(st: TrackerState): set<IpAddr> {
    set ip | ip in st.records && st.records[ip].permanent && !st.records[ip].persisted
  }

  // The re-check of `flush_to_file` under the write lock.
  function StillUnwritten(st: TrackerState, pending: set<IpAddr>): set<IpAddr> {
    set ip | ip in pending && ip in st.records && !st.records[ip].persisted
  }

  // `persist_ip` marks the record it wrote, unless it is no longer permanent.
  function MarkWritten(st: TrackerState, ip: IpAddr): TrackerState {
    if IsPermanent(st, ip)
    then st.(records := st.records[ip := st.records[ip].(persisted := true)])
    else st
  }

  // `flush_to_file` marks everything it wrote.
  function MarkAll(st: TrackerState, ips: set<IpAddr>): TrackerState {
    st.(records := map ip | ip in st.records ::
      if ip in ips then st.records[ip].(persisted := true) else st.records[ip])
  }

  function Remove(st: TrackerState, ips: set<IpAddr>): TrackerState {
    st.(records := st.records - ips)
  }

  // ------------------------------------------------------------ the tracker itself

  class AutoBanTracker {
    const settings: Settings
    var records: Records
    var maxRecords: nat
    var lastCapacityCleanup: Option<nat>
    var lastOverflowLog: Option<nat>

    constructor FromConfig(config: AutoBanConfig)
      ensures State() == EMPTY_TRACKER && settings == SettingsOf(config)
    {
      settings := SettingsOf(config);
      records := map[];
      maxRecords := INITIAL_MAX_RECORDS;
      lastCapacityCleanup := None;
      lastOverflowLog := None;
    }

    function State(): TrackerState
      reads this
    {
      TrackerState(records, maxRecords, lastCapacityCleanup, lastOverflowLog)
    }

    method IsAutoBanned(ip: IpAddr, now: nat) returns (banned: bool)
      ensures banned == Banned(State(), ip, now)
    {
      banned := ip in records && records[ip].IsBanned(now);
    }

    // The section of `record_violation` that holds the record lock.
    method RecordViolation(ip: IpAddr, reason: Reason, now: nat) returns (banned: bool, permanent: bool)
      modifies this
      ensures (State(), banned) == Violate(old(State()), ip, reason, now, settings)
      ensures permanent == (banned && State().records[ip].permanent)
    {
      var already := IsAutoBanned(ip, now);
      if already {
        return false, false;
      }
      if ip !in records && |records| >= maxRecords {
        var refused := EnsureCapacity(ip, now);
        if refused {
          return false, false;
        }
      }
      banned := RecordTracked(ip, reason, now);
      permanent := banned && records[ip].permanent;
    }

    // The capacity guard: sweep at most once a second, then grow. It compares
    // with the limit it read first.
    method EnsureCapacity(ip: IpAddr, now: nat) returns (refused: bool)
      requires ip !in records && Full(State())
      modifies this
      ensures refused == Refuses(old(State()), ip, now, settings)
      ensures var room := MakeRoom(old(State()), now, settings);
        State() == if refused && Due(room.lastOverflowLog, now, 60)
                   then room.(lastOverflowLog := Some(now))
                   else room
    {
      var limit := maxRecords;
      if Due(lastCapacityCleanup, now, 1) {
        RetainKept(now);
        lastCapacityCleanup := Some(now);
      }
      if |records| >= limit {
        var grown := Min(limit * 2, HARD_MAX_RECORDS);
        if grown > limit {
          maxRecords := grown;
        } else if Due(lastCapacityCleanup, now, 60) {
          lastCapacityCleanup := Some(now);
        }
      }
      refused := |records| >= limit;
      if refused && Due(lastOverflowLog, now, 60) {
        lastOverflowLog := Some(now);
      }
    }

    // Counting the violation and deciding on the ban.
    method RecordTracked(ip: IpAddr, reason: Reason, now: nat) returns (banned: bool)
      requires !Banned(State(), ip, now)
      modifies this
      ensures (State(), banned) == Track(old(State()), ip, reason, now, settings)
    {
      var record: IpRecord;
      if ip in records {
        record := records[ip];
        if Elapsed(now, record.firstViolation) >= settings.windowSecs {
          record := record.(count := 0, firstViolation := now);
        }
        if !record.permanent && record.bannedUntil.Some? && now >= record.bannedUntil.value {
          record := record.(bannedUntil := None, persisted := false, count := 0, firstViolation := now);
        }
        record := record.(count := record.count + 1);
        banned := (TierOf(reason) == Immediate || record.count >= settings.threshold) && !record.IsBanned(now);
      } else {
        record := FreshRecord(now);
        banned := TierOf(reason) == Immediate || settings.threshold <= 1;
      }
      if banned {
        record := RegisterOffense(record, now, settings.policy.offenseDecaySecs);
        var kind := settings.policy.KindFor(reason, ip, record.offenses, settings.banDurationSecs);
        record := ApplyBan(record, kind, now);
      }
      records := records[ip := record];
    }

    // A sweep changes nobody's standing, now or later.
    method CleanupExpired(now: nat)
      modifies this
      ensures State() == Cleanup(old(State()), now, settings)
      ensures forall ip, at | now <= at :: Banned(State(), ip, at) <==> Banned(old(State()), ip, at)
    {
      RetainKept(now);
    }

    // `retain`: every record is looked at once, in the order of a hash map.
    method RetainKept(now: nat)
      modifies this`records
      ensures records == Sweep(old(records), now, settings.windowSecs)
    {
      var todo := records.Keys;
      while todo != {}
        invariant todo <= records.Keys
        invariant records == map ip | ip in old(records)
            && (ip in todo || Kept(old(records)[ip], now, settings.windowSecs)) :: old(records)[ip]
        decreases todo
      {
        var ip :| ip in todo;
        todo := todo - {ip};
        if !Kept(records[ip], now, settings.windowSecs) {
          records := records - {ip};
        }
      }
    }

    method LoadOne(ip: IpAddr, expire: u64, nowUnix: u64, now: nat)
      modifies this`records
      ensures records == RestoreOne(old(records), ip, expire, nowUnix, now)
    {
      if Representable(expire, nowUnix, now) {
        var record := if ip in records then records[ip] else FreshRecord(now);
        records := records[ip := RestoreRecord(record, RestoredEnd(expire, nowUnix, now))];
      }
    }

    // Restores one ban after the other, in the arbitrary order of a hash map.
    method LoadClientBans(bans: map<IpAddr, u64>, nowUnix: u64, now: nat) returns (count: nat)
      modifies this
      ensures State() == Restore(old(State()), bans, nowUnix, now)
      ensures count == |bans|
    {
      count := |bans|;
      if count == 0 {
        return;
      }
      LoadAll(bans, nowUnix, now);
      maxRecords := Max(maxRecords, count) + HEADROOM;
    }

    method LoadAll(bans: map<IpAddr, u64>, nowUnix: u64, now: nat)
      modifies this`records
      ensures records == RestoredRecords(old(records), bans, nowUnix, now)
    {
      var todo := bans.Keys;
      ghost var done: map<IpAddr, u64> := map[];
      RestoreNone(records, nowUnix, now);
      while todo != {}
        invariant todo <= bans.Keys && done.Keys == bans.Keys - todo
        invariant forall ip <- done :: done[ip] == bans[ip]
        invariant records == RestoredRecords(old(records), done, nowUnix, now)
        decreases todo
      {
        var ip :| ip in todo;
        RestoreOneMore(old(records), done, ip, bans[ip], nowUnix, now);
        todo := todo - {ip};
        done := done[ip := bans[ip]];
        LoadOne(ip, bans[ip], nowUnix, now);
      }
      assert done == bans;
    }

    // The snapshot `flush_to_file` takes under the read lock.
    method Snapshot() returns (banned: seq<IpAddr>, pending: seq<IpAddr>)
      ensures NoDuplicates(banned) && SetOf(banned) == PermanentIps(State())
      ensures NoDuplicates(pending) && SetOf(pending) == UnwrittenIps(State())
    {
      banned, pending := [], [];
      var todo := records.Keys;
      while todo != {}
        invariant todo <= records.Keys
        invariant NoDuplicates(banned) && NoDuplicates(pending)
        invariant forall ip :: ip in banned <==> ip in records.Keys - todo && records[ip].permanent
        invariant forall ip :: ip in pending <==>
          ip in records.Keys - todo && records[ip].permanent && !records[ip].persisted
        decreases todo
      {
        var ip :| ip in todo;
        todo := todo - {ip};
        if records[ip].permanent {
          banned := banned + [ip];
          if !records[ip].persisted {
            pending := pending + [ip];
          }
        }
      }
    }

    method MarkPersisted(ip: IpAddr)
      modifies this
      ensures State() == MarkWritten(old(State()), ip)
      ensures !IsUnwritten(State(), ip) && PermanentIps(State()) == PermanentIps(old(State()))
      ensures UnwrittenIps(State()) == UnwrittenIps(old(State())) - {ip}
    {
      if ip in records && records[ip].permanent {
        records := records[ip := records[ip].(persisted := true)];
      }
    }

    method MarkAllPersisted(ips: seq<IpAddr>)
      modifies this
      ensures State() == MarkAll(old(State()), SetOf(ips))
    {
      for i := 0 to |ips|
        invariant State() == MarkAll(old(State()), SetOf(ips[..i]))
      {
        assert ips[..i + 1] == ips[..i] + [ips[i]];
        if ips[i] in records {
          records := records[ips[i] := records[ips[i]].(persisted := true)];
        }
      }
      assert ips[..|ips|] == ips;
    }

    method RemoveIps(ips: seq<IpAddr>)
      modifies this
      ensures State() == Remove(old(State()), SetOf(ips))
    {
      for i := 0 to |ips|
        invariant State() == Remove(old(State()), SetOf(ips[..i]))
      {
        assert ips[..i + 1] == ips[..i] + [ips[i]];
        records := records - {ips[i]};
      }
      assert ips[..|ips|] == ips;
    }
  }
}
