// The client-ban file: one `<ip> <unix seconds>` pair per line. Parsing keeps
// the latest expiry of every address, compaction rewrites the file without
// changing what it means, and a ban keeps its end across a restart.
module ClientBans {
  import opened Base
  import opened Text
  import opened Ip
  import opened Tracker

  type BanMap = map<IpAddr, u64>

  // ------------------------------------------------------------ parsing

  // What a line says, if it says anything: an address and the end of its ban.
  function ReadBan(line: string, text: IpText): Option<(IpAddr, u64)> {
    var bare := Trim(line);
    if bare == "" || bare[0] == '#' then None
    else
      var parts := Tokens(bare);
      if |parts| < 2 then None
      else
        match (text.parse(parts[0]), ParseUnsigned(parts[1], U64_MAX))
        case (Some(ip), Some(expire)) => Some((ip, expire))
        case _ => None
  }

  function AddBan(bans: BanMap, line: string, now: u64, text: IpText): BanMap {
    match ReadBan(line, text)
    case None => bans
    case Some((ip, expire)) =>
      if expire <= now then bans
      else bans[ip := if ip in bans then Max(bans[ip], expire) else expire]
  }

  function ParseFrom(bans: BanMap, lines: seq<string>, now: u64, text: IpText): BanMap
    decreases |lines|
  {
    if lines == [] then bans
    else ParseFrom(AddBan(bans, lines[0], now, text), lines[1..], now, text)
  }

  function Parse(content: string, now: u64, text: IpText): BanMap {
    ParseFrom(map[], Lines(content), now, text)
  }

  // `parse_client_ban_lines`
  method ParseClientBanLines(content: string, now: u64, text: IpText) returns (out: BanMap)
    ensures out == Parse(content, now, text)
  {
    out := map[];
    var lines := Lines(content);
    assert lines[0..] == lines;
    for i := 0 to |lines|
      invariant ParseFrom(out, lines[i..], now, text) == Parse(content, now, text)
    {
      assert lines[i..][1..] == lines[i + 1..];
      ghost var before := out;
      var ban := ReadBan(lines[i], text);
      if ban.Some? {
        var (ip, expire) := ban.value;
        if expire > now {
          var slot := if ip in out then out[ip] else expire;
          out := out[ip := if expire > slot then expire else slot];
        }
      }
      assert out == AddBan(before, lines[i], now, text);
    }
  }

  // ------------------------------------------------------------ what a file means

  function Later(a: Option<u64>, b: Option<u64>): Option<u64> {
    match (a, b)
    case (Some(x), Some(y)) => Some(Max(x, y))
    case (None, _) => b
    case (_, None) => a
  }

  function Says(line: string, ip: IpAddr, text: IpText): Option<u64> {
    match ReadBan(line, text)
    case Some((who, expire)) => if who == ip then Some(expire) else None
    case None => None
  }

  // The latest expiry any line gives an address, whatever the time.
  function Latest(lines: seq<string>, ip: IpAddr, text: IpText): Option<u64> {
    if lines == [] then None
    else Later(Says(lines[0], ip, text), Latest(lines[1..], ip, text))
  }

  function Lookup(bans: BanMap, ip: IpAddr): Option<u64> {
    if ip in bans then Some(bans[ip]) else None
  }

  function Unexpired(expire: Option<u64>, now: u64): Option<u64> {
    if expire.Some? && expire.value > now then expire else None
  }

  lemma {:induction false} ParseFromIsLatest(bans: BanMap, lines: seq<string>, now: u64, ip: IpAddr, text: IpText)
    requires Unexpired(Lookup(bans, ip), now) == Lookup(bans, ip)
    ensures Lookup(ParseFrom(bans, lines, now, text), ip)
      == Later(Lookup(bans, ip), Unexpired(Latest(lines, ip, text), now))
    decreases |lines|
  {
    if lines != [] {
      ParseFromIsLatest(AddBan(bans, lines[0], now, text), lines[1..], now, ip, text);
    }
  }

  // The file read at a time holds, for every address, the latest expiry of all
  // its lines, if that still lies ahead.
  lemma ParseIsLatest(content: string, now: u64, ip: IpAddr, text: IpText)
    ensures Lookup(Parse(content, now, text), ip) == Unexpired(Latest(Lines(content), ip, text), now)
  {
    ParseFromIsLatest(map[], Lines(content), now, ip, text);
  }

  lemma SameLookups(a: BanMap, b: BanMap)
    requires forall ip :: Lookup(a, ip) == Lookup(b, ip)
    ensures a == b
  {
    forall ip
      ensures (ip in a <==> ip in b) && (ip in a ==> a[ip] == b[ip])
    {
      assert Lookup(a, ip) == Lookup(b, ip);
    }
  }

  lemma {:induction false} LatestConcat(a: seq<string>, b: seq<string>, ip: IpAddr, text: IpText)
    ensures Latest(a + b, ip, text) == Later(Latest(a, ip, text), Latest(b, ip, text))
  {
    if a == [] {
      assert a + b == b;
    } else {
      assert (a + b)[1..] == a[1..] + b;
      LatestConcat(a[1..], b, ip, text);
    }
  }

  // ------------------------------------------------------------ writing

  function BanLine(ip: IpAddr, expire: u64, text: IpText): string {
    text.show(ip) + " " + Decimal(expire)
  }

  lemma BanLineReads(ip: IpAddr, expire: u64, text: IpText)
    requires text.Lawful()
    ensures ReadBan(BanLine(ip, expire, text), text) == Some((ip, expire))
    ensures '\n' !in BanLine(ip, expire, text)
  {
    PrintedIsPlain(text, ip);
    var a, b := text.show(ip), Decimal(expire);
    var line := BanLine(ip, expire, text);
    assert line[0] == a[0] && line[|line| - 1] == b[|b| - 1];
    TrimNoSpaceEnds(line);
    TwoTokens(a, b);
    UnsignedRoundTrip(expire, U64_MAX);
  }

  lemma TwoWords(a: string, gap: string, b: string, rest: string)
    requires a != "" && NoSpace(a) && b != "" && NoSpace(b) && AllSpace(gap) && gap != ""
    requires rest != "" ==> IsSpace(rest[0])
    ensures Tokens(a + (gap + (b + rest))) == [a] + ([b] + Tokens(rest))
  {
    assert gap[0] in gap;
    FirstToken(a, gap + (b + rest));
    TokensAfterSpace(gap, b + rest);
    FirstToken(b, rest);
  }

  lemma EndsOfLine(a: string, gap: string, b: string, rest: string)
    requires a != "" && NoSpace(a) && b != "" && NoSpace(b)
    requires rest != "" ==> !IsSpace(rest[|rest| - 1])
    ensures var core := a + (gap + (b + rest));
      core != "" && core[0] == a[0] && !IsSpace(core[0]) && !IsSpace(core[|core| - 1])
  {
    assert a[0] in a && b[|b| - 1] in b;
  }

  // A line may have white space around its two words, and more words behind them.
  lemma SpacedLineReads(
      before: string, ip: IpAddr, gap: string, expire: u64, rest: string, after: string, text: IpText)
    requires text.Lawful() && AllSpace(before) && AllSpace(gap) && gap != "" && AllSpace(after)
    requires rest != "" ==> IsSpace(rest[0]) && !IsSpace(rest[|rest| - 1])
    ensures ReadBan(before + (text.show(ip) + (gap + (Decimal(expire) + rest))) + after, text) == Some((ip, expire))
  {
    var a, b := text.show(ip), Decimal(expire);
    PrintedIsPlain(text, ip);
    UnsignedRoundTrip(expire, U64_MAX);
    assert NoSpace(b) by {
      assert forall c <- b :: IsDigit(c);
    }
    assert a[0] in a;
    EndsOfLine(a, gap, b, rest);
    TrimOf(before, a + (gap + (b + rest)), after);
    TwoWords(a, gap, b, rest);
  }

  // A comment says nothing, and neither does a line that does not begin with an
  // address.
  lemma OtherLinesSayNothing(before: string, core: string, after: string, text: IpText)
    requires AllSpace(before) && AllSpace(after)
    requires core != "" && !IsSpace(core[0]) && !IsSpace(core[|core| - 1])
    requires core[0] == '#' || |Tokens(core)| < 2 || text.parse(Tokens(core)[0]) == None
    ensures ReadBan(before + core + after, text) == None
  {
    TrimOf(before, core, after);
  }

  // `append_client_ban_line`
  function AppendBan(content: string, ip: IpAddr, expire: u64, text: IpText): string {
    (if EndsWithNewline(content) then content else content + "\n") + (BanLine(ip, expire, text) + "\n")
  }

  lemma LinesAfterAppend(content: string, ip: IpAddr, expire: u64, text: IpText)
    requires text.Lawful()
    ensures Lines(AppendBan(content, ip, expire, text)) == Lines(content) + [BanLine(ip, expire, text)]
  {
    var line := BanLine(ip, expire, text);
    BanLineReads(ip, expire, text);
    LinesSingle(line);
    if EndsWithNewline(content) {
      LinesConcat(content, line + "\n");
    } else {
      LinesTerminate(content);
      LinesConcat(content + "\n", line + "\n");
    }
  }

  // Appending a ban, even to a file whose last line was never finished, raises
  // the expiry of its address and leaves every other entry alone.
  lemma AppendIsMaxUpdate(content: string, ip: IpAddr, expire: u64, now: u64, text: IpText)
    requires text.Lawful()
    ensures var before := Parse(content, now, text);
      Parse(AppendBan(content, ip, expire, text), now, text)
      == if expire <= now then before
         else before[ip := if ip in before then Max(before[ip], expire) else expire]
  {
    var before := Parse(content, now, text);
    var after := Parse(AppendBan(content, ip, expire, text), now, text);
    var line := BanLine(ip, expire, text);
    LinesAfterAppend(content, ip, expire, text);
    BanLineReads(ip, expire, text);
    var expected :=
      if expire <= now then before
      else before[ip := if ip in before then Max(before[ip], expire) else expire];
    forall other
      ensures Lookup(after, other) == Lookup(expected, other)
    {
      ParseIsLatest(content, now, other, text);
      ParseIsLatest(AppendBan(content, ip, expire, text), now, other, text);
      LatestConcat(Lines(content), [line], other, text);
      assert Latest([line], other, text) == Says(line, other, text);
    }
    SameLookups(after, expected);
  }

  // ------------------------------------------------------------ compaction

  predicate IsLeast(least: IpAddr, ips: set<IpAddr>) {
    least in ips && forall other <- ips :: other == least || Less(least, other)
  }

  lemma LeastExists(ips: set<IpAddr>)
    requires ips != {}
    ensures exists least :: IsLeast(least, ips)
  {
    var some :| some in ips;
    if ips == {some} {
      assert IsLeast(some, ips);
    } else {
      LeastExists(ips - {some});
      var rest :| IsLeast(rest, ips - {some});
      var least := if Less(rest, some) then rest else some;
      forall other | other in ips
        ensures other == least || Less(least, other)
      {
        if other != some {
          assert other == rest || Less(rest, other);
          assert Less(some, rest) || Less(rest, some);
        }
      }
      assert IsLeast(least, ips);
    }
  }

  ghost function LeastOf(ips: set<IpAddr>): (least: IpAddr)
    requires ips != {}
    ensures IsLeast(least, ips)
  {
    LeastExists(ips);
    var least :| IsLeast(least, ips);
    least
  }

  // The addresses in ascending order.
  ghost function Ascending(ips: set<IpAddr>): seq<IpAddr> {
    if ips == {} then [] else [LeastOf(ips)] + Ascending(ips - {LeastOf(ips)})
  }

  method SortedKeys(bans: BanMap) returns (kept: seq<IpAddr>)
    ensures kept == Ascending(bans.Keys)
  {
    kept := [];
    var todo := bans.Keys;
    while todo != {}
      invariant kept + Ascending(todo) == Ascending(bans.Keys)
      decreases todo
    {
      LeastExists(todo);
      var ip :| ip in todo && IsLeast(ip, todo);
      assert ip == LeastOf(todo);
      ghost var rest := Ascending(todo - {ip});
      assert (kept + [ip]) + rest == kept + ([ip] + rest);
      kept := kept + [ip];
      todo := todo - {ip};
    }
  }

  lemma {:induction false} AscendingLists(ips: set<IpAddr>)
    ensures NoDuplicates(Ascending(ips))
    ensures forall ip :: ip in Ascending(ips) <==> ip in ips
    ensures |Ascending(ips)| == |ips|
    decreases ips
  {
    if ips != {} {
      AscendingLists(ips - {LeastOf(ips)});
    }
  }

  const HEADER_START := "# auto_ban client "
  const HEADER_END := "bans, format: <ip> <expire_unix>"
  const HEADER := HEADER_START + HEADER_END

  function Render(order: seq<IpAddr>, bans: BanMap, text: IpText): string
    requires forall ip <- order :: ip in bans
  {
    if order == [] then ""
    else BanLine(order[0], bans[order[0]], text) + "\n" + Render(order[1..], bans, text)
  }

  // The file `cleanup_client_bans` writes.
  ghost function Compact(content: string, now: u64, text: IpText): string {
    var bans := Parse(content, now, text);
    AscendingLists(bans.Keys);
    HEADER + "\n" + Render(Ascending(bans.Keys), bans, text)
  }

  predicate IsEntryLine(line: string) {
    Trim(line) != "" && Trim(line)[0] != '#'
  }

  function CountEntryLines(lines: seq<string>): nat {
    if lines == [] then 0 else (if IsEntryLine(lines[0]) then 1 else 0) + CountEntryLines(lines[1..])
  }

  lemma {:induction false} RenderAppend(order: seq<IpAddr>, ip: IpAddr, bans: BanMap, text: IpText)
    requires ip in bans && forall other <- order :: other in bans
    ensures Render(order + [ip], bans, text) == Render(order, bans, text) + (BanLine(ip, bans[ip], text) + "\n")
  {
    var line := BanLine(ip, bans[ip], text) + "\n";
    if order == [] {
      assert order + [ip] == [ip];
      assert [ip][1..] == [];
    } else {
      assert (order + [ip])[1..] == order[1..] + [ip];
      RenderAppend(order[1..], ip, bans, text);
      var first := BanLine(order[0], bans[order[0]], text) + "\n";
      assert first + (Render(order[1..], bans, text) + line) == (first + Render(order[1..], bans, text)) + line;
    }
  }

  method RenderAll(kept: seq<IpAddr>, bans: BanMap, text: IpText) returns (body: string)
    requires forall ip <- kept :: ip in bans
    ensures body == Render(kept, bans, text)
  {
    body := "";
    for i := 0 to |kept|
      invariant forall ip <- kept[..i] :: ip in bans
      invariant body == Render(kept[..i], bans, text)
    {
      assert kept[..i + 1] == kept[..i] + [kept[i]];
      RenderAppend(kept[..i], kept[i], bans, text);
      body := body + (BanLine(kept[i], bans[kept[i]], text) + "\n");
    }
    assert kept[..|kept|] == kept;
  }

  method CleanupClientBans(content: string, now: u64, text: IpText) returns (out: string, pruned: nat)
    ensures out == Compact(content, now, text)
    ensures pruned == Max(CountEntryLines(Lines(content)) - |Parse(content, now, text)|, 0)
  {
    var bans := ParseClientBanLines(content, now, text);
    var kept := SortedKeys(bans);
    AscendingLists(bans.Keys);
    var body := RenderAll(kept, bans, text);
    out := HEADER + "\n" + body;
    pruned := Max(CountEntryLines(Lines(content)) - |kept|, 0);
  }

  lemma {:induction false} LatestOfRender(order: seq<IpAddr>, bans: BanMap, ip: IpAddr, text: IpText)
    requires text.Lawful() && NoDuplicates(order) && forall other <- order :: other in bans
    ensures Latest(Lines(Render(order, bans, text)), ip, text) == if ip in order then Some(bans[ip]) else None
  {
    if order != [] {
      var line := BanLine(order[0], bans[order[0]], text);
      BanLineReads(order[0], bans[order[0]], text);
      LinesSingle(line);
      LinesConcat(line + "\n", Render(order[1..], bans, text));
      LatestConcat([line], Lines(Render(order[1..], bans, text)), ip, text);
      LatestOfRender(order[1..], bans, ip, text);
      assert Latest([line], ip, text) == Says(line, ip, text);
      if order[0] == ip {
        assert ip !in order[1..];
      }
    }
  }

  lemma HeaderIsOneLine()
    ensures '\n' !in HEADER
  {
  }

  lemma CommentSaysNothing(line: string, ip: IpAddr, text: IpText)
    requires line != "" && line[0] == '#' && !IsSpace(line[|line| - 1])
    ensures Says(line, ip, text) == None
  {
    TrimNoSpaceEnds(line);
  }

  lemma HeaderSaysNothing(ip: IpAddr, text: IpText)
    ensures Lines(HEADER + "\n") == [HEADER] && Says(HEADER, ip, text) == None
  {
    HeaderIsOneLine();
    LinesSingle(HEADER);
    assert HEADER[0] == HEADER_START[0] == '#';
    assert HEADER[|HEADER| - 1] == HEADER_END[|HEADER_END| - 1] == '>';
    CommentSaysNothing(HEADER, ip, text);
  }

  lemma LatestOfCompact(content: string, now: u64, ip: IpAddr, text: IpText)
    requires text.Lawful()
    ensures Latest(Lines(Compact(content, now, text)), ip, text) == Lookup(Parse(content, now, text), ip)
  {
    var bans := Parse(content, now, text);
    AscendingLists(bans.Keys);
    var body := Render(Ascending(bans.Keys), bans, text);
    HeaderSaysNothing(ip, text);
    LinesConcat(HEADER + "\n", body);
    LatestConcat([HEADER], Lines(body), ip, text);
    LatestOfRender(Ascending(bans.Keys), bans, ip, text);
    assert Latest([HEADER], ip, text) == Says(HEADER, ip, text);
  }

  // Compaction keeps the meaning of the file for good: read at any later time,
  // the rewritten file holds exactly what the original would have held then.
  lemma CompactionKeepsMeaning(content: string, now: u64, later: u64, text: IpText)
    requires text.Lawful() && now <= later
    ensures Parse(Compact(content, now, text), later, text) == Parse(content, later, text)
  {
    forall ip
      ensures Lookup(Parse(Compact(content, now, text), later, text), ip) == Lookup(Parse(content, later, text), ip)
    {
      ParseIsLatest(content, now, ip, text);
      ParseIsLatest(content, later, ip, text);
      ParseIsLatest(Compact(content, now, text), later, ip, text);
      LatestOfCompact(content, now, ip, text);
    }
    SameLookups(Parse(Compact(content, now, text), later, text), Parse(content, later, text));
  }

  // Compacting a compacted file writes what compacting the original would write;
  // at the same time of day, the very same bytes.
  lemma CompactionIdempotent(content: string, now: u64, later: u64, text: IpText)
    requires text.Lawful() && now <= later
    ensures Compact(Compact(content, now, text), later, text) == Compact(content, later, text)
  {
    CompactionKeepsMeaning(content, now, later, text);
  }

  // ------------------------------------------------------------ restarts

  // The expiry `persist_client_ban` writes: whole seconds of the wall clock plus
  // the whole seconds the ban has left on the monotonic one.
  function ExpiryToWrite(wall: nat, mono: nat, until: nat): nat {
    Min(WholeSecs(wall) + WholeSecs(Max(until - mono, 0)), U64_MAX)
  }

  // A ban restored from its line ends when it would have ended, give or take the
  // rounding of three clock readings: less than two seconds early, less than one
  // second late.
  lemma RestoredEndIsClose(wall: nat, mono: nat, until: nat, wall': nat, mono': nat)
    requires mono <= until && ExpiryToWrite(wall, mono, until) < U64_MAX
    requires WholeSecs(wall') < ExpiryToWrite(wall, mono, until)
    ensures var restored := RestoredEnd(ExpiryToWrite(wall, mono, until), WholeSecs(wall'), mono');
      var originalWall := wall + (until - mono);
      var restoredWall := wall' + (restored - mono');
      originalWall - 2 * Nanos(1) < restoredWall < originalWall + Nanos(1)
  {
  }
}
