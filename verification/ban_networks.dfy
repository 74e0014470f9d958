// What a network entry of the IP ban list bans: the addresses whose leading bits
// are those of its base.
module BanNetworks {
  import opened Base
  import opened Text
  import opened Ip
  import opened BanList

  // The k-th bit of a number, counted from the lowest.
  function Bit(n: nat, k: nat): nat {
    n / Pow2(k) % 2
  }

  // Two numbers agree in all bits from the `free`-th up to the `width`-th.
  ghost predicate SameBits(a: nat, b: nat, free: nat, width: nat) {
    forall k | free <= k < width :: Bit(a, k) == Bit(b, k)
  }

  // An address of the same version with the same first `prefixLen` bits.
  ghost predicate InNetwork(base: IpAddr, prefixLen: nat, ip: IpAddr) {
    match (base, ip)
    case (V4(b), V4(bits)) => SameBits(b, bits, 32 - Min(prefixLen, 32), 32)
    case (V6(b), V6(wide)) => SameBits(b, wide, 128 - Min(prefixLen, 128), 128)
    case _ => false
  }

  // ------------------------------------------------------------ bits and masks

  lemma HalfQuotient(n: nat, p: nat)
    requires p > 0
    ensures n / p == 2 * (n / (2 * p)) + n / p % 2
  {
    var q, r := n / p, n % p;
    assert n == p * q + r;
    var h, b := q / 2, q % 2;
    Distribute(p, h, b);
    assert p * b + r < 2 * p by {
      assert b == 0 || b == 1;
    }
    DivUnique(n, 2 * p, h, p * b + r);
  }

  lemma Distribute(p: nat, h: nat, b: nat)
    ensures p * (2 * h + b) == 2 * p * h + p * b
  {
  }

  lemma QuotientStep(n: nat, k: nat)
    ensures n / Pow2(k) == 2 * (n / Pow2(k + 1)) + Bit(n, k)
  {
    HalfQuotient(n, Pow2(k));
  }

  lemma SmallQuotient(n: nat, p: nat)
    requires n < p
    ensures n / p == 0
  {
  }

  // What is left of two numbers above `free` bits is the same exactly when these
  // bits are.
  lemma {:induction false} QuotientsAgree(a: nat, b: nat, free: nat, width: nat)
    requires free <= width && a < Pow2(width) && b < Pow2(width)
    ensures a / Pow2(free) == b / Pow2(free) <==> SameBits(a, b, free, width)
    decreases width - free
  {
    if free == width {
      SmallQuotient(a, Pow2(width));
      SmallQuotient(b, Pow2(width));
    } else {
      QuotientsAgree(a, b, free + 1, width);
      QuotientStep(a, free);
      QuotientStep(b, free);
      assert SameBits(a, b, free, width) <==> Bit(a, free) == Bit(b, free) && SameBits(a, b, free + 1, width);
    }
  }

  lemma MasksAgree(a: nat, b: nat, free: nat, width: nat)
    requires free <= width && a < Pow2(width) && b < Pow2(width)
    ensures Masked(a, free) == Masked(b, free) <==> SameBits(a, b, free, width)
  {
    MaskedEqual(a, b, free);
    QuotientsAgree(a, b, free, width);
  }

  lemma Pow2Of128()
    ensures Pow2(128) == V6_COUNT
  {
    Pow2Of32();
    Pow2Double(32, V4_COUNT);
    Pow2Double(64, V4_COUNT * V4_COUNT);
  }

  // The masks of a range compare exactly the leading bits.
  lemma RangeHoldsNetwork(range: IpRange, ip: IpAddr)
    requires ValidRange(range)
    ensures Contains(range, ip) <==> InNetwork(range.base, range.prefixLen, ip)
  {
    match (range.base, ip)
    case (V4(base), V4(bits)) =>
      Pow2Of32();
      MasksAgree(base, bits, 32 - range.prefixLen, 32);
    case (V6(base), V6(wide)) =>
      Pow2Of128();
      MasksAgree(base, wide, 128 - range.prefixLen, 128);
    case _ =>
  }

  // The two ends: a network of length zero is all addresses of its version, one of
  // full length its base alone.
  lemma NetworkEnds(base: IpAddr, ip: IpAddr)
    ensures InNetwork(base, 0, ip) <==> base.V4? == ip.V4?
    ensures InNetwork(base, if base.V4? then 32 else 128, ip) <==> ip == base
  {
    match (base, ip)
    case (V4(b), V4(bits)) =>
      Pow2Of32();
      QuotientsAgree(b, bits, 0, 32);
    case (V6(b), V6(wide)) =>
      Pow2Of128();
      QuotientsAgree(b, wide, 0, 128);
    case _ =>
  }

  // ------------------------------------------------------------ lines of the file

  function NetworkLine(base: IpAddr, prefixLen: nat, text: IpText): string {
    text.show(base) + "/" + Decimal(prefixLen)
  }

  function Width(ip: IpAddr): nat {
    if ip.V4? then 32 else 128
  }

  // The peers a network line is meant for: an IPv4-mapped network of at least 96
  // bits stands for the IPv4 network, and a peer may come in either spelling.
  ghost predicate Meant(base: IpAddr, prefixLen: nat, peer: IpAddr) {
    if IsMapped(base) && prefixLen >= 96
    then InNetwork(Canonical(base), prefixLen - 96, Canonical(peer))
    else InNetwork(base, prefixLen, peer) || InNetwork(base, prefixLen, Canonical(peer))
  }

  lemma NetworkLineParts(base: IpAddr, prefixLen: nat, text: IpText)
    requires text.Lawful()
    ensures '/' in NetworkLine(base, prefixLen, text)
    ensures Split(NetworkLine(base, prefixLen, text), '/') == [text.show(base), Decimal(prefixLen)]
  {
    PrintedIsPlain(text, base);
    var digits := Decimal(prefixLen);
    assert '/' !in digits by {
      assert forall c <- digits :: IsDigit(c);
    }
    SplitCons(text.show(base), '/', digits);
    SplitSingle(digits, '/');
    assert NetworkLine(base, prefixLen, text)[|text.show(base)|] == '/';
  }

  lemma TooLong(n: nat)
    requires n > U8_MAX
    ensures ParseUnsigned(Decimal(n), U8_MAX) == None
  {
    DecimalRoundTrip(n);
    var digits := Decimal(n);
    assert IsDigit(digits[0]);
  }

  lemma NetworkLineRange(base: IpAddr, prefixLen: nat, text: IpText)
    requires text.Lawful()
    ensures ParseRange(NetworkLine(base, prefixLen, text), text) ==
      if prefixLen > Width(base) then Err else Ok(Normalized(base, prefixLen))
  {
    NetworkLineParts(base, prefixLen, text);
    if prefixLen <= U8_MAX {
      UnsignedRoundTrip(prefixLen, U8_MAX);
    } else {
      TooLong(prefixLen);
    }
  }

  lemma AddedRange(list: BanSet, range: IpRange, peer: IpAddr)
    requires list.Valid() && ValidRange(range)
    ensures var longer := list.(ranges := list.ranges + [range]);
      longer.Valid() && (Matches(longer, peer) <==> Matches(list, peer) || Contains(range, peer))
  {
    var longer := list.(ranges := list.ranges + [range]);
    assert forall r :: r in longer.ranges <==> r in list.ranges || r == range;
  }

  lemma NormalizedHolds(base: IpAddr, prefixLen: nat, peer: IpAddr)
    requires prefixLen <= Width(base)
    ensures ValidRange(Normalized(base, prefixLen))
    ensures Contains(Normalized(base, prefixLen), peer) || Contains(Normalized(base, prefixLen), Canonical(peer)) <==>
      Meant(base, prefixLen, peer)
  {
    RangeHoldsNetwork(Normalized(base, prefixLen), peer);
    RangeHoldsNetwork(Normalized(base, prefixLen), Canonical(peer));
  }

  // A network line bans, beyond what was banned before, exactly the peers it is
  // meant for; it is refused exactly when its length is more than its version has
  // bits.
  lemma NetworkLineBans(list: BanSet, base: IpAddr, prefixLen: nat, peer: IpAddr, text: IpText)
    requires text.Lawful() && list.Valid()
    ensures AddEntry(list, NetworkLine(base, prefixLen, text), text).Ok? <==> prefixLen <= Width(base)
    ensures IsBanned(AddOrSkip(list, NetworkLine(base, prefixLen, text), text), peer) <==>
      IsBanned(list, peer) || (prefixLen <= Width(base) && Meant(base, prefixLen, peer))
  {
    NetworkLineParts(base, prefixLen, text);
    NetworkLineRange(base, prefixLen, text);
    if prefixLen <= Width(base) {
      NormalizedHolds(base, prefixLen, peer);
      AddedRange(list, Normalized(base, prefixLen), peer);
      AddedRange(list, Normalized(base, prefixLen), Canonical(peer));
    }
  }

  // Of all lines with a slash, those are accepted that have a readable address in
  // front of it, and behind it nothing but a length the address has bits for.
  lemma SlashLines(list: BanSet, front: string, back: string, text: IpText)
    requires list.Valid() && '/' !in front
    ensures AddEntry(list, front + ['/'] + back, text).Ok? <==>
      && '/' !in back
      && text.parse(front).Some?
      && ParseUnsigned(back, 255).Some?
      && ParseUnsigned(back, 255).value <= Width(text.parse(front).value)
  {
    var line := front + ['/'] + back;
    assert line[|front|] == '/';
    SplitCons(front, '/', back);
    if '/' !in back {
      SplitSingle(back, '/');
    } else {
      TwoPieces(back);
    }
  }

  lemma TwoPieces(s: string)
    requires '/' in s
    ensures |Split(s, '/')| >= 2
  {
    IndexFromFinds(s, '/', 0);
  }

  // ------------------------------------------------------------ the loaded list

  lemma NetworkEntry(base: IpAddr, prefixLen: nat, text: IpText)
    requires text.Lawful()
    ensures Entry(NetworkLine(base, prefixLen, text)) == NetworkLine(base, prefixLen, text)
  {
    var line := NetworkLine(base, prefixLen, text);
    PrintedIsPlain(text, base);
    var digits := Decimal(prefixLen);
    assert IsDigit(digits[0]) && IsDigit(digits[|digits| - 1]);
    assert text.show(base)[0] in text.show(base);
    assert line[0] == text.show(base)[0] && line[|line| - 1] == digits[|digits| - 1];
    forall k | 0 <= k < |line|
      ensures line[k] != '#'
    {
      assert line[k] in text.show(base) || line[k] == '/' || line[k] in digits;
    }
    IndexOfIs(line, '#', |line|);
    assert line[..|line|] == line;
    TrimNoSpaceEnds(line);
  }

  lemma {:induction false} EntryExtends(list: BanSet, entries: seq<string>, e: string, peer: IpAddr, text: IpText)
    requires list.Valid() && e in entries
    requires forall l: BanSet | l.Valid() :: IsBanned(AddOrSkip(l, e, text), peer)
    ensures IsBanned(LoadEntries(list, entries, text), peer)
    decreases |entries|
  {
    var next := AddOrSkip(list, entries[0], text);
    if entries[0] == e {
      LoadEntriesExtends(next, entries[1..], text);
      ExtendsBans(next, LoadEntries(next, entries[1..], text), peer);
    } else {
      EntryExtends(next, entries[1..], e, peer, text);
    }
  }

  // A file with the line of a network, among any other lines and whatever comments
  // and white space surround it, bans every peer the line is meant for.
  lemma NetworkIsLoaded(content: string, base: IpAddr, prefixLen: nat, peer: IpAddr, text: IpText)
    requires text.Lawful() && prefixLen <= Width(base) && Meant(base, prefixLen, peer)
    requires exists line <- Lines(content) :: Entry(line) == NetworkLine(base, prefixLen, text)
    ensures IsBanned(Load(content, text), peer)
  {
    var line :| line in Lines(content) && Entry(line) == NetworkLine(base, prefixLen, text);
    LineIsEntry(Lines(content), line);
    forall list: BanSet | list.Valid()
      ensures IsBanned(AddOrSkip(list, NetworkLine(base, prefixLen, text), text), peer)
    {
      NetworkLineBans(list, base, prefixLen, peer, text);
    }
    EntryExtends(NO_BANS, Entries(content), NetworkLine(base, prefixLen, text), peer, text);
  }

  lemma OneEntry(line: string, text: IpText)
    requires Entry(line) == line != ""
    ensures LoadEntries(NO_BANS, EntriesOf([line]), text) == AddOrSkip(NO_BANS, line, text)
  {
    assert EntriesOf([line]) == [line];
    assert [line][1..] == [];
  }

  // A file that holds nothing but such a line bans nobody else.
  lemma WrittenNetworkIsLoaded(base: IpAddr, prefixLen: nat, peer: IpAddr, text: IpText)
    requires text.Lawful() && prefixLen <= Width(base)
    ensures IsBanned(Load(NetworkLine(base, prefixLen, text) + "\n", text), peer) <==> Meant(base, prefixLen, peer)
  {
    var line := NetworkLine(base, prefixLen, text);
    PrintedIsPlain(text, base);
    assert '\n' !in line by {
      assert forall c <- line :: c in text.show(base) || c == '/' || c in Decimal(prefixLen);
    }
    LinesSingle(line);
    NetworkEntry(base, prefixLen, text);
    OneEntry(line, text);
    NetworkLineBans(NO_BANS, base, prefixLen, peer, text);
  }
}
