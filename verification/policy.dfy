// How a violation is turned into a ban, and which configurations the server
// accepts.
module Policy {
  import opened Base
  import opened Text
  import opened Ip

  datatype AutoBanConfig = AutoBanConfig(
    enabled: bool,
    threshold: u32,
    windowSecs: u64,
    banDurationSecs: u64,
    banListPath: string,
    immediateBanSecs: u64,
    escalationEnabled: bool,
    escalationSteps: string,
    offenseDecaySecs: u64,
    clientBanDurationSecs: u64,
    clientBanJitterSecs: u64,
    clientBanListPath: string)

  datatype IpBanConfig = IpBanConfig(on: bool, path: string)

  datatype Reason =
    | SqlInjection
    | PathTraversal
    | Crawler
    | MissingUserAgent
    | ClientBanned
    | PrivateIp
    | NonStandardPeerId
    | PeerIdUserAgentMismatch

  datatype Tier = Immediate | Suspicious | Heuristic

  function TierOf(reason: Reason): Tier {
    match reason
    case SqlInjection | PathTraversal | ClientBanned | Crawler | MissingUserAgent => Immediate
    case PrivateIp => Suspicious
    case NonStandardPeerId | PeerIdUserAgentMismatch => Heuristic
  }

  datatype BanKind = Temporary(secs: u64) | Permanent

  function FromSecs(secs: u64): BanKind {
    if secs == 0 then Permanent else Temporary(secs)
  }

  const MAX_BAN_DURATION_SECS := 10 * 365 * 24 * 60 * 60

  // ------------------------------------------------------------ ladder steps

  function Parts(raw: string): seq<string> {
    TrimmedParts(Split(raw, ','))
  }

  // The non-empty entries of a comma-separated list.
  function TrimmedParts(pieces: seq<string>): seq<string> {
    if pieces == [] then []
    else
      var part := Trim(pieces[0]);
      (if part == "" then [] else [part]) + TrimmedParts(pieces[1..])
  }

  // Entries that are not numbers are dropped without a word.
  function ParseParts(parts: seq<string>): (steps: seq<u64>)
    ensures |steps| <= |parts|
  {
    if parts == [] then []
    else
      match ParseUnsigned(parts[0], U64_MAX)
      case Some(secs) => [secs] + ParseParts(parts[1..])
      case None => ParseParts(parts[1..])
  }

  function ParseSteps(raw: string): seq<u64> {
    ParseParts(Parts(raw))
  }

  // A ladder as it is written: its steps in decimal, with commas between them.
  function LadderText(steps: seq<u64>): string {
    if steps == [] then ""
    else if |steps| == 1 then Decimal(steps[0])
    else Decimal(steps[0]) + [','] + LadderText(steps[1..])
  }

  lemma StepIsRead(n: u64)
    ensures ',' !in Decimal(n) && Trim(Decimal(n)) == Decimal(n) && ParseUnsigned(Decimal(n), U64_MAX) == Some(n)
  {
    UnsignedRoundTrip(n, U64_MAX);
    var digits := Decimal(n);
    assert IsDigit(digits[0]) && IsDigit(digits[|digits| - 1]);
    assert forall c <- digits :: IsDigit(c);
    TrimNoSpaceEnds(digits);
  }

  // A written ladder is read as these steps, in this order.
  lemma {:induction false} LadderIsRead(steps: seq<u64>)
    ensures ParseSteps(LadderText(steps)) == steps
  {
    if steps == [] {
      SplitSingle("", ',');
    } else {
      StepIsRead(steps[0]);
      var first := Decimal(steps[0]);
      if |steps| == 1 {
        SplitSingle(first, ',');
        OneMorePart(first, []);
        OneMoreStep(first, [], steps[0]);
        assert [first] + [] == [first];
      } else {
        SplitCons(first, ',', LadderText(steps[1..]));
        OneMorePart(first, Split(LadderText(steps[1..]), ','));
        OneMoreStep(first, Parts(LadderText(steps[1..])), steps[0]);
        LadderIsRead(steps[1..]);
      }
    }
  }

  lemma OneMoreStep(first: string, rest: seq<string>, n: u64)
    requires ParseUnsigned(first, U64_MAX) == Some(n)
    ensures ParseParts([first] + rest) == [n] + ParseParts(rest)
  {
    assert ([first] + rest)[1..] == rest;
  }

  lemma OneMorePart(first: string, rest: seq<string>)
    requires first != "" && Trim(first) == first
    ensures TrimmedParts([first] + rest) == [first] + TrimmedParts(rest)
  {
    assert ([first] + rest)[1..] == rest;
  }

  // ------------------------------------------------------------ client bans

  // u64::rotate_left(7) and xor, folded over the two halves of an address.
  function Accumulate(acc: bv64, chunk: bv64): bv64 {
    acc.RotateLeft(7) ^ chunk
  }

  function AddressHash(ip: IpAddr): nat {
    match ip
    case V4(bits) => bits
    case V6(wide) =>
      var high := wide / 0x1_0000_0000_0000_0000;
      var low := wide % 0x1_0000_0000_0000_0000;
      Accumulate(Accumulate(0, high as bv64), low as bv64) as nat
  }

  // Two's complement reading of the low 64 bits.
  function ToI64(x: int): (r: int)
    ensures -0x8000_0000_0000_0000 <= r <= 0x7FFF_FFFF_FFFF_FFFF
  {
    var low := x % 0x1_0000_0000_0000_0000;
    if low < 0x8000_0000_0000_0000 then low else low - 0x1_0000_0000_0000_0000
  }

  function JitterOf(hash: nat, jitter: u64): (r: int)
    ensures -0x8000_0000_0000_0000 <= r <= 0x7FFF_FFFF_FFFF_FFFF
  {
    if jitter == 0 then 0
    else
      var span := SatAdd(Min(jitter * 2, U64_MAX), 1);
      var offset := hash % span;
      ToI64(ToI64(offset) - ToI64(jitter))
  }

  function ClientJitter(ip: IpAddr, jitter: u64): (r: int)
    ensures -0x8000_0000_0000_0000 <= r <= 0x7FFF_FFFF_FFFF_FFFF
  {
    JitterOf(AddressHash(ip), jitter)
  }

  const I64_MAX := 0x7FFF_FFFF_FFFF_FFFF

  lemma JitterOfBounded(hash: nat, jitter: u64)
    ensures 0 - jitter <= JitterOf(hash, jitter) <= jitter
    ensures 0 < jitter <= I64_MAX ==> JitterOf(hash, jitter) == hash % (2 * jitter + 1) - jitter
  {
    if 0 < jitter <= I64_MAX {
      SpanOfSmall(jitter);
      var offset := hash % (2 * jitter + 1);
      WrappedDifference(offset, jitter);
    }
  }

  lemma SpanOfSmall(jitter: u64)
    requires jitter <= I64_MAX
    ensures SatAdd(Min(jitter * 2, U64_MAX), 1) == 2 * jitter + 1
  {
  }

  // Both conversions wrap, and so does the subtraction, yet the difference comes
  // out right whenever it is an i64.
  lemma WrappedDifference(offset: u64, jitter: u64)
    requires 0 - I64_MAX - 1 <= offset - jitter <= I64_MAX
    ensures ToI64(ToI64(offset) - ToI64(jitter)) == offset - jitter
  {
  }

  // Half a spread either way, for every jitter at all.
  lemma JitterBounded(ip: IpAddr, jitter: u64)
    ensures 0 - jitter <= ClientJitter(ip, jitter) <= jitter
  {
    JitterOfBounded(AddressHash(ip), jitter);
  }

  // An IPv6 address with nothing in its upper half hashes to its lower half.
  lemma LowHalfIsHash(hash: u64)
    ensures AddressHash(V6(hash)) == hash
  {
    var low := hash as bv64;
    assert Accumulate(0, 0) == 0;
    assert Accumulate(0, low) == low;
  }

  ghost predicate Taken(jitter: u64, offset: int) {
    exists ip :: ClientJitter(ip, jitter) == offset
  }

  lemma OffsetIsTaken(jitter: u64, offset: int)
    requires jitter <= I64_MAX && 0 - jitter <= offset <= jitter
    ensures Taken(jitter, offset)
  {
    var hash: u64 := offset + jitter;
    JitterOfBounded(hash, jitter);
    if jitter > 0 {
      SmallMod(hash, 2 * jitter + 1);
    }
    LowHalfIsHash(hash);
    assert ClientJitter(V6(hash), jitter) == offset;
  }

  lemma SmallMod(x: nat, m: nat)
    requires x < m
    ensures x % m == x
  {
  }

  lemma TooFarOut(jitter: u64)
    requires jitter > I64_MAX
    ensures !Taken(jitter, jitter)
  {
  }

  // The whole range is used, each offset by some address, if and only if the
  // jitter is an i64; beyond that the spread is cut off.
  lemma JitterUsesItsRange(jitter: u64)
    ensures (forall offset | 0 - jitter <= offset <= jitter :: Taken(jitter, offset)) <==> jitter <= I64_MAX
  {
    if jitter <= I64_MAX {
      forall offset | 0 - jitter <= offset <= jitter
        ensures Taken(jitter, offset)
      {
        OffsetIsTaken(jitter, offset);
      }
    } else {
      TooFarOut(jitter);
    }
  }

  // IPv4 addresses do: each, read as a number, takes the place its remainder says,
  // so neighbours end a second apart, and all places are taken if there are as many
  // addresses.
  lemma V4UsesItsRange(bits: Bits32, jitter: u64, offset: int)
    requires jitter <= I64_MAX
    ensures ClientJitter(V4(bits), jitter) == bits % (2 * jitter + 1) - jitter
    ensures 0 - jitter <= offset <= jitter && 2 * jitter < V4_COUNT ==>
      ClientJitter(V4(offset + jitter), jitter) == offset
  {
    JitterOfBounded(bits, jitter);
    if jitter == 0 {
      assert bits % 1 == 0;
    }
    if 0 - jitter <= offset <= jitter && 2 * jitter < V4_COUNT {
      JitterOfBounded(offset + jitter, jitter);
      if jitter > 0 {
        SmallMod(offset + jitter, 2 * jitter + 1);
      }
    }
  }

  datatype BanPolicy = BanPolicy(
    immediateBanSecs: u64,
    clientBanDurationSecs: u64,
    clientBanJitterSecs: u64,
    escalationEnabled: bool,
    escalationSteps: seq<u64>,
    offenseDecaySecs: u64)
  {
    function ClientBanBase(fallbackSecs: u64): u64 {
      if clientBanDurationSecs != 0 then clientBanDurationSecs
      else if immediateBanSecs != 0 then immediateBanSecs
      else fallbackSecs
    }

    function ClientBanSecs(ip: IpAddr, fallbackSecs: u64): u64 {
      var base := ClientBanBase(fallbackSecs);
      if base == 0 then 0
      else
        var delta := ClientJitter(ip, clientBanJitterSecs);
        var secs :=
          if delta >= 0 then SatAdd(base, delta) else SatSub(base, -delta);
        Max(secs, 1)
    }

    function KindFor(reason: Reason, ip: IpAddr, offenses: u32, fallbackSecs: u64): BanKind {
      if reason == ClientBanned then
        FromSecs(ClientBanSecs(ip, fallbackSecs))
      else
        match TierOf(reason)
        case Immediate =>
          if escalationEnabled && offenses >= 2 then Permanent
          else if immediateBanSecs == 0 then FromSecs(fallbackSecs)
          else FromSecs(immediateBanSecs)
        case Suspicious => FromSecs(fallbackSecs)
        case Heuristic =>
          if !escalationEnabled then FromSecs(fallbackSecs)
          else
            var index := Max(offenses - 1, 0);
            if index < |escalationSteps| then FromSecs(escalationSteps[index]) else Permanent
    }
  }

  lemma SpreadBan(base: u64, delta: int, jitter: u64)
    requires base != 0 && 0 - jitter <= delta <= jitter
    ensures var secs := if delta >= 0 then SatAdd(base, delta) else SatSub(base, -delta);
      Max(1, base - jitter) <= Max(secs, 1) <= base + jitter
  {
  }

  // A client ban is as long as its base, give or take the jitter, and never
  // shorter than a second. Base and jitter come from the policy alone.
  lemma ClientBanLength(policy: BanPolicy, ip: IpAddr, fallbackSecs: u64)
    ensures var base := policy.ClientBanBase(fallbackSecs);
      var secs := policy.ClientBanSecs(ip, fallbackSecs);
      && (base == 0 <==> secs == 0)
      && (base != 0 ==>
        Max(1, base - policy.clientBanJitterSecs) <= secs <= base + policy.clientBanJitterSecs)
  {
    var base, jitter := policy.ClientBanBase(fallbackSecs), policy.clientBanJitterSecs;
    JitterBounded(ip, jitter);
    if base != 0 {
      SpreadBan(base, ClientJitter(ip, jitter), jitter);
    }
  }

  // Permanent bans have two sources only: a zero default duration and escalation.
  lemma PermanentSources(
      policy: BanPolicy, reason: Reason, ip: IpAddr, offenses: u32, fallbackSecs: u64)
    requires policy.KindFor(reason, ip, offenses, fallbackSecs) == Permanent
    ensures fallbackSecs == 0 || policy.escalationEnabled
    ensures reason == ClientBanned ==>
      policy.clientBanDurationSecs == 0 && policy.immediateBanSecs == 0 && fallbackSecs == 0
  {
  }

  function PolicyOf(config: AutoBanConfig): BanPolicy {
    BanPolicy(
      config.immediateBanSecs,
      config.clientBanDurationSecs,
      config.clientBanJitterSecs,
      config.escalationEnabled,
      ParseSteps(config.escalationSteps),
      config.offenseDecaySecs)
  }

  // ------------------------------------------------------------ validation

  predicate ValidPart(part: string) {
    match ParseUnsigned(part, U64_MAX)
    case Some(secs) => secs <= MAX_BAN_DURATION_SECS
    case None => false
  }

  // The configurations the server accepts. Whether two paths name the same file is
  // a question to the file system.
  predicate Accepts(auto: AutoBanConfig, ipBan: IpBanConfig, sameFile: (string, string) -> bool) {
    if !auto.enabled then true
    else
      && auto.threshold != 0
      && auto.windowSecs != 0
      && auto.banDurationSecs <= MAX_BAN_DURATION_SECS
      && auto.immediateBanSecs <= MAX_BAN_DURATION_SECS
      && auto.clientBanDurationSecs <= MAX_BAN_DURATION_SECS
      && auto.clientBanJitterSecs <= MAX_BAN_DURATION_SECS
      && (forall part <- Parts(auto.escalationSteps) :: ValidPart(part))
      && !(auto.escalationEnabled && auto.offenseDecaySecs == 0)
      && (auto.banDurationSecs == 0 || auto.escalationEnabled ==>
           && auto.banListPath != ""
           && ipBan.on
           && sameFile(auto.banListPath, ipBan.path))
  }

  // What the server refuses a configuration for.
  datatype Fault =
    | NoThreshold
    | NoWindow
    | BanTooLong
    | ImmediateBanTooLong
    | ClientBanTooLong
    | JitterTooLong
    | BadStep(step: string)
    | NoDecay
    | NoBanList
    | ListSwitchedOff
    | OtherList

  const TEN_YEARS := 315_360_000

  predicate HasPermanentBans(auto: AutoBanConfig) {
    auto.banDurationSecs == 0 || auto.escalationEnabled
  }

  predicate IsFault(auto: AutoBanConfig, ipBan: IpBanConfig, sameFile: (string, string) -> bool, fault: Fault) {
    match fault
    case NoThreshold => auto.threshold == 0
    case NoWindow => auto.windowSecs == 0
    case BanTooLong => auto.banDurationSecs > TEN_YEARS
    case ImmediateBanTooLong => auto.immediateBanSecs > TEN_YEARS
    case ClientBanTooLong => auto.clientBanDurationSecs > TEN_YEARS
    case JitterTooLong => auto.clientBanJitterSecs > TEN_YEARS
    case BadStep(step) =>
      step in Parts(auto.escalationSteps)
      && (ParseUnsigned(step, U64_MAX).Some? ==> ParseUnsigned(step, U64_MAX).value > TEN_YEARS)
    case NoDecay => auto.escalationEnabled && auto.offenseDecaySecs == 0
    case NoBanList => HasPermanentBans(auto) && auto.banListPath == ""
    case ListSwitchedOff => HasPermanentBans(auto) && !ipBan.on
    case OtherList => HasPermanentBans(auto) && !sameFile(auto.banListPath, ipBan.path)
  }

  // The loop over the entries of the ladder.
  method FirstBadStep(steps: string) returns (fault: Option<Fault>)
    ensures fault.None? <==> forall part <- Parts(steps) :: ValidPart(part)
    ensures fault.Some? ==>
      fault.value.BadStep? && fault.value.step in Parts(steps) && !ValidPart(fault.value.step)
  {
    var pieces := Split(steps, ',');
    for i := 0 to |pieces|
      invariant forall part <- TrimmedParts(pieces[..i]) :: ValidPart(part)
    {
      TrimmedNext(pieces, i);
      var entry := Trim(pieces[i]);
      if entry != "" && !ValidPart(entry) {
        TrimmedHolds(pieces, i);
        return Some(BadStep(entry));
      }
    }
    assert pieces[..|pieces|] == pieces;
    fault := None;
  }

  lemma {:induction false} TrimmedConcat(a: seq<string>, b: seq<string>)
    ensures TrimmedParts(a + b) == TrimmedParts(a) + TrimmedParts(b)
  {
    if a == [] {
      assert a + b == b;
    } else {
      assert (a + b)[1..] == a[1..] + b;
      TrimmedConcat(a[1..], b);
    }
  }

  lemma TrimmedNext(pieces: seq<string>, i: nat)
    requires i < |pieces|
    ensures TrimmedParts(pieces[..i + 1])
      == TrimmedParts(pieces[..i]) + if Trim(pieces[i]) == "" then [] else [Trim(pieces[i])]
  {
    assert pieces[..i + 1] == pieces[..i] + [pieces[i]];
    TrimmedConcat(pieces[..i], [pieces[i]]);
    assert [pieces[i]][1..] == [];
  }

  lemma {:induction false} TrimmedHolds(pieces: seq<string>, i: nat)
    requires i < |pieces| && Trim(pieces[i]) != ""
    ensures Trim(pieces[i]) in TrimmedParts(pieces)
  {
    if i > 0 {
      TrimmedHolds(pieces[1..], i - 1);
    }
  }

  // `validate_auto_ban_config`: the checks one after the other. It accepts exactly
  // what `Accepts` says, and what it refuses has the fault it names.
  method ValidateAutoBanConfig(auto: AutoBanConfig, ipBan: IpBanConfig, sameFile: (string, string) -> bool)
    returns (fault: Option<Fault>)
    ensures fault.None? <==> Accepts(auto, ipBan, sameFile)
    ensures fault.Some? ==> auto.enabled && IsFault(auto, ipBan, sameFile, fault.value)
  {
    if !auto.enabled { return None; }
    if auto.threshold == 0 { return Some(NoThreshold); }
    if auto.windowSecs == 0 { return Some(NoWindow); }
    if auto.banDurationSecs > MAX_BAN_DURATION_SECS { return Some(BanTooLong); }
    if auto.immediateBanSecs > MAX_BAN_DURATION_SECS { return Some(ImmediateBanTooLong); }
    if auto.clientBanDurationSecs > MAX_BAN_DURATION_SECS { return Some(ClientBanTooLong); }
    if auto.clientBanJitterSecs > MAX_BAN_DURATION_SECS { return Some(JitterTooLong); }
    fault := FirstBadStep(auto.escalationSteps);
    if fault.Some? { return; }
    if auto.escalationEnabled && auto.offenseDecaySecs == 0 { return Some(NoDecay); }
    if auto.banDurationSecs != 0 && !auto.escalationEnabled { return None; }
    if auto.banListPath == "" { return Some(NoBanList); }
    if !ipBan.on { return Some(ListSwitchedOff); }
    if !sameFile(auto.banListPath, ipBan.path) { return Some(OtherList); }
  }

  // A configuration is refused exactly for such a fault, and a tracker that is
  // switched off never.
  lemma RefusedForFaults(auto: AutoBanConfig, ipBan: IpBanConfig, sameFile: (string, string) -> bool)
    ensures Accepts(auto, ipBan, sameFile) <==>
      auto.enabled ==> forall fault :: !IsFault(auto, ipBan, sameFile, fault)
  {
    if auto.enabled && !Accepts(auto, ipBan, sameFile) {
      var fault := SomeFault(auto, ipBan, sameFile);
    }
    if auto.enabled && Accepts(auto, ipBan, sameFile) {
      forall fault
        ensures !IsFault(auto, ipBan, sameFile, fault)
      {
        if fault.BadStep? && fault.step in Parts(auto.escalationSteps) {
          assert ValidPart(fault.step);
        }
      }
    }
  }

  lemma SomeFault(auto: AutoBanConfig, ipBan: IpBanConfig, sameFile: (string, string) -> bool)
      returns (fault: Fault)
    requires auto.enabled && !Accepts(auto, ipBan, sameFile)
    ensures IsFault(auto, ipBan, sameFile, fault)
  {
    if part :| part in Parts(auto.escalationSteps) && !ValidPart(part) {
      fault := BadStep(part);
    } else {
      fault :=
        if auto.threshold == 0 then NoThreshold
        else if auto.windowSecs == 0 then NoWindow
        else if auto.banDurationSecs > TEN_YEARS then BanTooLong
        else if auto.immediateBanSecs > TEN_YEARS then ImmediateBanTooLong
        else if auto.clientBanDurationSecs > TEN_YEARS then ClientBanTooLong
        else if auto.clientBanJitterSecs > TEN_YEARS then JitterTooLong
        else if auto.escalationEnabled && auto.offenseDecaySecs == 0 then NoDecay
        else if auto.banListPath == "" then NoBanList
        else if !ipBan.on then ListSwitchedOff
        else OtherList;
    }
  }

  // No entry of an accepted ladder is dropped: the parsed ladder has one step
  // per entry, in order, and each step is a bounded number of seconds.
  lemma {:induction false} AcceptedLadder(parts: seq<string>)
    requires forall part <- parts :: ValidPart(part)
    ensures |ParseParts(parts)| == |parts|
    ensures forall k :: 0 <= k < |parts| ==>
      ParseUnsigned(parts[k], U64_MAX) == Some(ParseParts(parts)[k])
    ensures forall secs <- ParseParts(parts) :: secs <= MAX_BAN_DURATION_SECS
  {
    if parts != [] {
      assert ValidPart(parts[0]);
      AcceptedLadder(parts[1..]);
    }
  }

  // Every ban an accepted configuration can issue is at most twenty years long.
  lemma AcceptedDuration(
      auto: AutoBanConfig, ipBan: IpBanConfig, sameFile: (string, string) -> bool,
      reason: Reason, ip: IpAddr, offenses: u32)
    requires auto.enabled && Accepts(auto, ipBan, sameFile)
    ensures var kind := PolicyOf(auto).KindFor(reason, ip, offenses, auto.banDurationSecs);
      kind.Temporary? ==> 1 <= kind.secs <= 2 * MAX_BAN_DURATION_SECS
  {
    var policy := PolicyOf(auto);
    if reason == ClientBanned {
      ClientBanLength(policy, ip, auto.banDurationSecs);
    } else if TierOf(reason) == Heuristic && policy.escalationEnabled {
      AcceptedLadder(Parts(auto.escalationSteps));
      var index := Max(offenses - 1, 0);
      assert index < |policy.escalationSteps| ==>
        policy.escalationSteps[index] in ParseParts(Parts(auto.escalationSteps));
    }
  }
}
