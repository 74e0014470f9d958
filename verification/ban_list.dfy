// The IP ban list that takes permanent bans over: how the list file is read
// back, what an entry bans, and what an append does to the list.
module BanList {
  import opened Base
  import opened Text
  import opened Ip

  const BOM := '\U{feff}'

  // ------------------------------------------------------------ list files

  function StripBom(line: string): string {
    if line != "" && line[0] == BOM then StripBom(line[1..]) else line
  }

  // What is left of a line once byte order marks, the comment and white space
  // are gone.
  function Entry(line: string): string {
    var bare := StripBom(line);
    Trim(bare[..IndexOf(bare, '#')])
  }

  function Boms(n: nat): string {
    if n == 0 then "" else [BOM] + Boms(n - 1)
  }

  lemma {:induction false} BomsGo(n: nat, rest: string)
    requires rest != "" ==> rest[0] != BOM
    ensures StripBom(Boms(n) + rest) == rest
  {
    if n == 0 {
      assert Boms(n) + rest == rest;
    } else {
      assert (Boms(n) + rest)[1..] == Boms(n - 1) + rest;
      BomsGo(n - 1, rest);
    }
  }

  lemma CutAtComment(kept: string, comment: string)
    requires '#' !in kept
    ensures IndexOf(kept + comment, '#') == |kept| <== comment == "" || comment[0] == '#'
    ensures (kept + comment)[..|kept|] == kept
  {
    if comment == "" || comment[0] == '#' {
      IndexOfIs(kept + comment, '#', |kept|);
    }
  }

  // What operators may put around an entry: byte order marks at the beginning,
  // white space on either side, and a comment behind it. Nothing of it remains.
  lemma EntryOfLine(n: nat, before: string, e: string, after: string, comment: string)
    requires AllSpace(before) && AllSpace(after) && (comment == "" || comment[0] == '#')
    requires '#' !in e && e != "" && e[0] != BOM && !IsSpace(e[0]) && !IsSpace(e[|e| - 1])
    ensures Entry(Boms(n) + (before + e + after + comment)) == e
  {
    var kept := before + e + after;
    assert forall c <- kept :: c in before || c in e || c in after;
    assert (kept + comment)[0] in before || (kept + comment)[0] == e[0];
    BomsGo(n, kept + comment);
    CutAtComment(kept, comment);
    TrimOf(before, e, after);
  }

  // A line with nothing else on it is no entry.
  lemma CommentIsNoEntry(n: nat, before: string, comment: string)
    requires AllSpace(before) && (comment == "" || comment[0] == '#')
    ensures Entry(Boms(n) + (before + comment)) == ""
  {
    assert before != "" ==> (before + comment)[0] in before;
    BomsGo(n, before + comment);
    CutAtComment(before, comment);
    TrimOfSpace(before);
  }

  function EntriesOf(lines: seq<string>): seq<string> {
    if lines == [] then []
    else
      var e := Entry(lines[0]);
      (if e == "" then [] else [e]) + EntriesOf(lines[1..])
  }

  function Entries(content: string): seq<string> {
    EntriesOf(Lines(content))
  }

  // The entries with the 1-based numbers of their lines.
  function Numbered(lines: seq<string>, first: nat): seq<(nat, string)> {
    if lines == [] then [] else NumberedLine(lines[0], first) + Numbered(lines[1..], first + 1)
  }

  function NumberedLine(line: string, number: nat): seq<(nat, string)> {
    if Entry(line) == "" then [] else [(number, Entry(line))]
  }

  lemma Associative<T>(a: seq<T>, b: seq<T>, c: seq<T>)
    ensures (a + b) + c == a + (b + c)
  {
  }

  lemma {:induction false} NumberedConcat(a: seq<string>, b: seq<string>, first: nat)
    ensures Numbered(a + b, first) == Numbered(a, first) + Numbered(b, first + |a|)
  {
    if a == [] {
      assert a + b == b;
    } else {
      assert (a + b)[1..] == a[1..] + b;
      NumberedConcat(a[1..], b, first + 1);
      Associative(NumberedLine(a[0], first), Numbered(a[1..], first + 1), Numbered(b, first + |a|));
    }
  }

  lemma NumberedNext(lines: seq<string>, index: nat)
    requires index < |lines|
    ensures Numbered(lines[..index + 1], 1) == Numbered(lines[..index], 1) + NumberedLine(lines[index], index + 1)
  {
    assert lines[..index + 1] == lines[..index] + [lines[index]];
    NumberedConcat(lines[..index], [lines[index]], 1);
  }

  // `read_list_file`
  method ReadListFile(content: string) returns (entries: seq<(nat, string)>)
    ensures entries == Numbered(Lines(content), 1)
  {
    entries := ReadLines(Lines(content));
  }

  method ReadLines(lines: seq<string>) returns (entries: seq<(nat, string)>)
    ensures entries == Numbered(lines, 1)
  {
    entries := [];
    for index := 0 to |lines|
      invariant entries == Numbered(lines[..index], 1)
    {
      NumberedNext(lines, index);
      var line := Entry(lines[index]);
      if line != "" {
        entries := entries + [(index + 1, line)];
      }
    }
    assert lines[..|lines|] == lines;
  }

  // What a reader makes of the numbered entries: each is the bare text of the
  // line its number names, in the order of the lines, and none is missing.
  lemma {:induction false} NumberedEntries(lines: seq<string>, first: nat)
    ensures |Numbered(lines, first)| == |EntriesOf(lines)|
    ensures forall k :: 0 <= k < |EntriesOf(lines)| ==>
      NumbersLine(lines, first, Numbered(lines, first)[k], EntriesOf(lines)[k])
  {
    if lines != [] {
      NumberedEntries(lines[1..], first + 1);
      var skipped := if Entry(lines[0]) == "" then 0 else 1;
      var rest := Numbered(lines[1..], first + 1);
      forall k | skipped <= k < |EntriesOf(lines)|
        ensures NumbersLine(lines, first, Numbered(lines, first)[k], EntriesOf(lines)[k])
      {
        assert NumbersLine(lines[1..], first + 1, rest[k - skipped], EntriesOf(lines[1..])[k - skipped]);
        assert lines[1..][rest[k - skipped].0 - (first + 1)] == lines[rest[k - skipped].0 - first];
      }
    }
  }

  predicate NumbersLine(lines: seq<string>, first: nat, numbered: (nat, string), entry: string) {
    && numbered.1 == entry
    && first <= numbered.0 < first + |lines|
    && Entry(lines[numbered.0 - first]) == entry
  }

  // ------------------------------------------------------------ ranges

  function Pow2(n: nat): (p: nat)
    ensures p > 0
  {
    if n == 0 then 1 else 2 * Pow2(n - 1)
  }

  lemma {:induction false} Pow2Add(m: nat, n: nat)
    ensures Pow2(m + n) == Pow2(m) * Pow2(n)
  {
    if m > 0 {
      Pow2Add(m - 1, n);
    }
  }

  datatype IpRange = IpRange(base: IpAddr, prefixLen: nat)

  predicate ValidRange(range: IpRange) {
    range.prefixLen <= if range.base.V4? then 32 else 128
  }

  function Quotient(n: nat, p: nat): nat
    requires p > 0
  {
    n / p
  }

  // `bits & (!0 << free)`: the low `free` bits cleared.
  function Masked(bits: nat, free: nat): int {
    var p := Pow2(free);
    p * Quotient(bits, p)
  }

  predicate Contains(range: IpRange, ip: IpAddr)
    requires ValidRange(range)
  {
    match (range.base, ip)
    case (V4(base), V4(bits)) =>
      Masked(base, 32 - range.prefixLen) == Masked(bits, 32 - range.prefixLen)
    case (V6(base), V6(bits)) =>
      Masked(base, 128 - range.prefixLen) == Masked(bits, 128 - range.prefixLen)
    case _ => false
  }

  // ------------------------------------------------------------ entries

  datatype BanSet = BanSet(ips: set<IpAddr>, ranges: seq<IpRange>) {
    ghost predicate Valid() {
      forall r <- ranges :: ValidRange(r)
    }
  }

  const NO_BANS := BanSet({}, [])

  function Normalized(ip: IpAddr, prefixLen: nat): IpRange {
    if IsMapped(ip) && prefixLen >= 96
    then IpRange(Canonical(ip), prefixLen - 96)
    else IpRange(ip, prefixLen)
  }

  function ParseRange(line: string, text: IpText): (r: Result<IpRange>)
    ensures r.Ok? ==> ValidRange(r.value)
  {
    var parts := Split(line, '/');
    if |parts| != 2 then Err
    else
      match (text.parse(parts[0]), ParseUnsigned(parts[1], U8_MAX))
      case (Some(ip), Some(prefixLen)) =>
        var range := Normalized(ip, prefixLen);
        if ValidRange(range) then Ok(range) else Err
      case _ => Err
  }

  function AddEntry(list: BanSet, line: string, text: IpText): (r: Result<BanSet>)
    requires list.Valid()
    ensures r.Ok? ==> r.value.Valid()
  {
    if '/' in line then
      match ParseRange(line, text)
      case Err => Err
      case Ok(range) => Ok(list.(ranges := list.ranges + [range]))
    else
      match text.parse(line)
      case None => Err
      case Some(ip) => Ok(list.(ips := list.ips + {Canonical(ip)}))
  }

  // An entry that does not parse is skipped with a warning.
  function AddOrSkip(list: BanSet, line: string, text: IpText): (r: BanSet)
    requires list.Valid()
    ensures r.Valid()
  {
    match AddEntry(list, line, text)
    case Ok(added) => added
    case Err => list
  }

  predicate Matches(list: BanSet, ip: IpAddr)
    requires list.Valid()
  {
    ip in list.ips || exists r <- list.ranges :: Contains(r, ip)
  }

  predicate IsBanned(list: BanSet, ip: IpAddr)
    requires list.Valid()
  {
    Matches(list, ip) || (Canonical(ip) != ip && Matches(list, Canonical(ip)))
  }

  function LoadEntries(list: BanSet, entries: seq<string>, text: IpText): (r: BanSet)
    requires list.Valid()
    ensures r.Valid()
    decreases |entries|
  {
    if entries == [] then list
    else LoadEntries(AddOrSkip(list, entries[0], text), entries[1..], text)
  }

  // `create_from_path` on the content of the file.
  function Load(content: string, text: IpText): (r: BanSet)
    ensures r.Valid()
  {
    LoadEntries(NO_BANS, Entries(content), text)
  }

  // The list as the program keeps it: entries are added to it in place.
  class IpBanList {
    var bannedIps: set<IpAddr>
    var bannedRanges: seq<IpRange>

    constructor ()
      ensures Value() == NO_BANS
    {
      bannedIps := {};
      bannedRanges := [];
    }

    function Value(): BanSet
      reads this
    {
      BanSet(bannedIps, bannedRanges)
    }

    method Add(line: string, text: IpText) returns (ok: bool)
      requires Value().Valid()
      modifies this
      ensures Value() == AddOrSkip(old(Value()), line, text)
      ensures ok == AddEntry(old(Value()), line, text).Ok?
    {
      if '/' in line {
        var range := ParseRange(line, text);
        ok := range.Ok?;
        if ok {
          bannedRanges := bannedRanges + [range.value];
        }
      } else {
        var ip := text.parse(line);
        ok := ip.Some?;
        if ok {
          bannedIps := bannedIps + {Canonical(ip.value)};
        }
      }
    }

    method Query(ip: IpAddr) returns (banned: bool)
      requires Value().Valid()
      ensures banned == IsBanned(Value(), ip)
    {
      banned := MatchesOne(ip);
      if !banned {
        var canonical := Canonical(ip);
        if canonical != ip {
          banned := MatchesOne(canonical);
        }
      }
    }

    // The set first, then one range after the other until one contains the address.
    method MatchesOne(ip: IpAddr) returns (matches: bool)
      requires Value().Valid()
      ensures matches == Matches(Value(), ip)
    {
      if ip in bannedIps {
        return true;
      }
      for i := 0 to |bannedRanges|
        invariant forall r <- bannedRanges[..i] :: !Contains(r, ip)
      {
        if Contains(bannedRanges[i], ip) {
          return true;
        }
      }
      assert bannedRanges[..|bannedRanges|] == bannedRanges;
      matches := false;
    }
  }

  method CreateFromContent(content: string, text: IpText) returns (list: IpBanList)
    ensures fresh(list) && list.Value() == Load(content, text)
  {
    list := new IpBanList();
    var entries := ReadListFile(content);
    NumberedEntries(Lines(content), 1);
    ghost var all := Entries(content);
    assert all[0..] == all;
    for i := 0 to |entries|
      invariant list.Value().Valid()
      invariant LoadEntries(list.Value(), all[i..], text) == Load(content, text)
      invariant fresh(list)
    {
      assert all[i..][1..] == all[i + 1..];
      assert NumbersLine(Lines(content), 1, entries[i], all[i]);
      var _ := list.Add(entries[i].1, text);
    }
  }

  // ------------------------------------------------------------ what is banned

  ghost predicate Extends(small: BanSet, large: BanSet) {
    small.ips <= large.ips && small.ranges <= large.ranges
  }

  lemma ExtendsBans(small: BanSet, large: BanSet, ip: IpAddr)
    requires small.Valid() && large.Valid() && Extends(small, large)
    requires IsBanned(small, ip)
    ensures IsBanned(large, ip)
  {
    assert forall r <- small.ranges :: r in large.ranges;
  }

  lemma {:induction false} LoadEntriesExtends(list: BanSet, entries: seq<string>, text: IpText)
    requires list.Valid()
    ensures Extends(list, LoadEntries(list, entries, text))
    decreases |entries|
  {
    if entries != [] {
      LoadEntriesExtends(AddOrSkip(list, entries[0], text), entries[1..], text);
    }
  }

  // The line `append_ip_line` writes for an address bans exactly the peers that
  // have the same canonical address, however either side is spelled.
  lemma PrintedLineBans(list: BanSet, ip: IpAddr, peer: IpAddr, text: IpText)
    requires text.Lawful() && list.Valid()
    ensures AddEntry(list, text.show(ip), text).Ok?
    ensures IsBanned(AddOrSkip(list, text.show(ip), text), peer)
      <==> IsBanned(list, peer) || Canonical(peer) == Canonical(ip)
  {
  }

  // A printed address is read back as itself.
  lemma PrintedEntry(text: IpText, ip: IpAddr)
    requires text.Lawful()
    ensures Entry(text.show(ip)) == text.show(ip)
  {
    PrintedIsPlain(text, ip);
    var s := text.show(ip);
    assert IndexOf(s, '#') == |s|;
    assert s[..|s|] == s;
    TrimNoSpaceEnds(s);
  }

  predicate HasLine(content: string, ip: IpAddr, text: IpText) {
    exists line <- Lines(content) :: Entry(line) == text.show(ip)
  }

  lemma {:induction false} LineIsEntry(lines: seq<string>, line: string)
    requires line in lines && Entry(line) != ""
    ensures Entry(line) in EntriesOf(lines)
  {
    if lines[0] != line {
      LineIsEntry(lines[1..], line);
    }
  }

  lemma {:induction false} EntryBans(list: BanSet, entries: seq<string>, ip: IpAddr, text: IpText)
    requires text.Lawful() && list.Valid() && text.show(ip) in entries
    ensures IsBanned(LoadEntries(list, entries, text), ip)
    decreases |entries|
  {
    var next := AddOrSkip(list, entries[0], text);
    if entries[0] == text.show(ip) {
      PrintedLineBans(list, ip, ip, text);
      LoadEntriesExtends(next, entries[1..], text);
      ExtendsBans(next, LoadEntries(next, entries[1..], text), ip);
    } else {
      EntryBans(next, entries[1..], ip, text);
    }
  }

  // Reloading a file that holds the line of an address bans that address.
  lemma LineIsLoaded(content: string, ip: IpAddr, text: IpText)
    requires text.Lawful() && HasLine(content, ip, text)
    ensures IsBanned(Load(content, text), ip)
  {
    var line :| line in Lines(content) && Entry(line) == text.show(ip);
    PrintedIsPlain(text, ip);
    LineIsEntry(Lines(content), line);
    EntryBans(NO_BANS, Entries(content), ip, text);
  }

  // ------------------------------------------------------------ mapped networks

  lemma MulCancel(p: nat, x: nat, y: nat)
    requires p > 0
    ensures p * x == p * y <==> x == y
  {
  }

  lemma MaskedEqual(a: nat, b: nat, free: nat)
    ensures Masked(a, free) == Masked(b, free) <==> Quotient(a, Pow2(free)) == Quotient(b, Pow2(free))
  {
    MulCancel(Pow2(free), Quotient(a, Pow2(free)), Quotient(b, Pow2(free)));
  }

  lemma DivUnique(n: nat, p: nat, q: nat, r: nat)
    requires r < p && n == p * q + r
    ensures n / p == q
  {
    var q', r' := n / p, n % p;
    assert n == p * q' + r';
    if q' < q {
      assert p * q == p * q' + p * (q - q');
      MulAtLeast(p, q - q');
    } else if q < q' {
      assert p * q' == p * q + p * (q' - q);
      MulAtLeast(p, q' - q);
    }
  }

  lemma MulAtLeast(p: nat, k: nat)
    requires k > 0
    ensures p * k >= p
  {
    assert p * k == p + p * (k - 1);
  }

  // Bits above a field of width p do not disturb the division inside it.
  lemma DivShift(high: nat, bits: nat, p: nat)
    requires p > 0
    ensures (p * high + bits) / p == high + bits / p
  {
    assert p * (high + bits / p) == p * high + p * (bits / p);
    DivUnique(p * high + bits, p, high + bits / p, bits % p);
  }

  // The two spellings of a network of IPv4 addresses mean the same: an entry
  // `::ffff:a.b.c.d/n` with n >= 96 is stored as a.b.c.d/(n - 96), and that
  // range holds an IPv4 peer exactly when the written one holds its mapped form.
  lemma MappedNetwork(base: Bits32, prefixLen: nat, peer: Bits32)
    requires 96 <= prefixLen <= 128
    ensures Normalized(Mapped(base), prefixLen) == IpRange(V4(base), prefixLen - 96)
    ensures Contains(IpRange(V4(base), prefixLen - 96), V4(peer))
      <==> Contains(IpRange(Mapped(base), prefixLen), Mapped(peer))
  {
    var free := 128 - prefixLen;
    CanonicalOfMapped(base);
    MaskedEqual(base, peer, free);
    MaskedEqual(Mapped(base).wide, Mapped(peer).wide, free);
    var high := MappedHighBits(free);
    DivShift(high, base, Pow2(free));
    DivShift(high, peer, Pow2(free));
  }

  lemma MappedHighBits(free: nat) returns (high: nat)
    requires free <= 32
    ensures 0xFFFF * V4_COUNT == Pow2(free) * high
  {
    Pow2Add(free, 32 - free);
    Pow2Of32();
    high := Pow2(32 - free) * 0xFFFF;
    MulAssoc(Pow2(free), Pow2(32 - free), 0xFFFF);
  }

  lemma Pow2Of32()
    ensures Pow2(32) == V4_COUNT
  {
    assert Pow2(4) == 16;
    Pow2Double(4, 16);
    Pow2Double(8, 0x100);
    Pow2Double(16, 0x1_0000);
  }

  lemma Pow2Double(n: nat, p: nat)
    requires Pow2(n) == p
    ensures Pow2(n + n) == p * p
  {
    Pow2Add(n, n);
  }

  lemma MulAssoc(a: nat, b: nat, c: nat)
    ensures (a * b) * c == a * (b * c)
  {
  }
}
