// The request writer, and that the parser gives back what it writes.
module HttpCodec {
  import opened Base
  import opened Text
  import opened Queries
  import opened HttpRequests
  import UrlBytes

  function Show(pair: Pair): string {
    pair.key + "=" + pair.value
  }

  // What follows the first pair of a query.
  function Tail(pairs: Pairs): string {
    if pairs.More? then "&" + Show(pairs.pair) + Tail(pairs.rest) else ""
  }

  function Join(pairs: Pairs): string {
    if pairs.More? then Show(pairs.pair) + Tail(pairs.rest) else ""
  }

  function Named(field: Field, value: string): Pair
    requires field != Unknown
  {
    Pair(NameOf(field), value)
  }

  function EventText(event: Event): string
    requires event != Empty
  {
    match event
    case Started => "started"
    case Stopped => "stopped"
    case Completed => "completed"
  }

  // The pairs of an announce, in the order they are written.
  function Written(text: UrlText, a: Announce): Pairs {
    More(Named(InfoHash, UrlBytes.Encode(a.infoHash)), AfterInfoHash(text, a))
  }

  function AfterInfoHash(text: UrlText, a: Announce): Pairs {
    More(Named(PeerId, UrlBytes.Encode(a.peerId)), AfterPeerId(text, a))
  }

  function AfterPeerId(text: UrlText, a: Announce): Pairs {
    More(Named(Port, Decimal(a.port)),
    More(Named(Uploaded, Decimal(a.uploaded)),
    More(Named(Downloaded, Decimal(a.downloaded)),
    More(Named(Left, Decimal(a.left)), AfterLeft(text, a)))))
  }

  function AfterLeft(text: UrlText, a: Announce): Pairs {
    if a.event == Empty then AfterEvent(text, a)
    else More(Named(EventField, EventText(a.event)), AfterEvent(text, a))
  }

  function AfterEvent(text: UrlText, a: Announce): Pairs {
    if a.numwant.None? then AfterNumwant(text, a)
    else More(Named(Numwant, Decimal(a.numwant.value)), AfterNumwant(text, a))
  }

  function AfterNumwant(text: UrlText, a: Announce): Pairs {
    if a.key.None? then LastPair() else More(Named(Key, text.encode(a.key.value)), LastPair())
  }

  function LastPair(): Pairs {
    More(Named(Compact, "1"), End)
  }

  const HTTP := " HTTP/1.1\r\n"
  const HOST := "Host: localhost"
  const BLANK := "\r\n\r\n"

  function Head(location: string, suffix: string): string {
    "GET " + location + suffix + "?"
  }

  function Foot(): string {
    HTTP + HOST + BLANK
  }

  function RequestText(location: string, suffix: string, pairs: Pairs): string {
    Head(location, suffix) + Join(pairs) + Foot()
  }

  method WriteFirst(sofar: string, field: Field, value: string, ghost rest: Pairs) returns (out: string)
    requires field != Unknown
    ensures out == sofar + NameOf(field) + "=" + value
    ensures out + Tail(rest) == sofar + Join(More(Named(field, value), rest))
  {
    out := sofar + NameOf(field) + "=" + value;
    var pair := Named(field, value);
    assert out == sofar + Show(pair);
    assert (sofar + Show(pair)) + Tail(rest) == sofar + (Show(pair) + Tail(rest));
  }

  method WritePair(sofar: string, field: Field, value: string, ghost rest: Pairs) returns (out: string)
    requires field != Unknown
    ensures out == sofar + "&" + NameOf(field) + "=" + value
    ensures out + Tail(rest) == sofar + Tail(More(Named(field, value), rest))
  {
    out := sofar + "&" + NameOf(field) + "=" + value;
    TailStep(sofar, Named(field, value), rest);
  }

  lemma TailStep(sofar: string, pair: Pair, rest: Pairs)
    ensures (sofar + "&" + pair.key + "=" + pair.value) + Tail(rest) == sofar + Tail(More(pair, rest))
  {
  }

  // `AnnounceRequest::write_bytes`
  method WriteAnnounce(text: UrlText, a: Announce, suffix: string) returns (out: string)
    requires |a.infoHash| == UrlBytes.LENGTH && |a.peerId| == UrlBytes.LENGTH
    ensures out == RequestText(ANNOUNCE, suffix, Written(text, a))
  {
    out := Head(ANNOUNCE, suffix);
    var id := UrlBytes.UrlEncode20Bytes(a.infoHash);
    out := WriteFirst(out, InfoHash, id[..], AfterInfoHash(text, a));
    id := UrlBytes.UrlEncode20Bytes(a.peerId);
    out := WritePair(out, PeerId, id[..], AfterPeerId(text, a));
    out := WriteNumbers(text, a, out);
    out := WriteOptions(text, a, out);
    out := out + Foot();
  }

  method WriteNumbers(text: UrlText, a: Announce, sofar: string) returns (out: string)
    ensures out + Tail(AfterLeft(text, a)) == sofar + Tail(AfterPeerId(text, a))
  {
    ghost var rest := AfterLeft(text, a);
    ghost var left := More(Named(Left, Decimal(a.left)), rest);
    ghost var downloaded := More(Named(Downloaded, Decimal(a.downloaded)), left);
    ghost var uploaded := More(Named(Uploaded, Decimal(a.uploaded)), downloaded);
    out := WritePair(sofar, Port, Decimal(a.port), uploaded);
    out := WritePair(out, Uploaded, Decimal(a.uploaded), downloaded);
    out := WritePair(out, Downloaded, Decimal(a.downloaded), left);
    out := WritePair(out, Left, Decimal(a.left), rest);
  }

  method WriteOptions(text: UrlText, a: Announce, sofar: string) returns (out: string)
    ensures out == sofar + Tail(AfterLeft(text, a))
  {
    out := sofar;
    if a.event != Empty {
      out := WritePair(out, EventField, EventText(a.event), AfterEvent(text, a));
    }
    if a.numwant.Some? {
      out := WritePair(out, Numwant, Decimal(a.numwant.value), AfterNumwant(text, a));
    }
    if a.key.Some? {
      out := WritePair(out, Key, text.encode(a.key.value), LastPair());
    }
    out := WritePair(out, Compact, "1", End);
    assert out + Tail(End) == out;
  }

  // The pairs of a scrape, from the `i`th hash on.
  function HashPairs(hashes: seq<seq<u8>>, i: nat): Pairs
    requires i <= |hashes|
    decreases |hashes| - i
  {
    if i == |hashes| then End
    else More(Named(InfoHash, UrlBytes.Encode(hashes[i])), HashPairs(hashes, i + 1))
  }

  ghost predicate AllIds(hashes: seq<seq<u8>>) {
    forall h <- hashes :: |h| == UrlBytes.LENGTH
  }

  // `ScrapeRequest::write_bytes`
  method WriteScrape(hashes: seq<seq<u8>>, suffix: string) returns (out: string)
    requires AllIds(hashes)
    ensures out == RequestText(SCRAPE, suffix, HashPairs(hashes, 0))
  {
    out := Head(SCRAPE, suffix);
    ghost var whole := out + Join(HashPairs(hashes, 0));
    var first := true;
    for i := 0 to |hashes|
      invariant first == (i == 0)
      invariant whole == out + ToCome(hashes, i, first)
    {
      out := WriteHash(hashes, i, first, out);
      first := false;
    }
    assert out + "" == out;
    out := out + Foot();
  }

  ghost function ToCome(hashes: seq<seq<u8>>, i: nat, first: bool): string
    requires i <= |hashes|
  {
    if first then Join(HashPairs(hashes, i)) else Tail(HashPairs(hashes, i))
  }

  method WriteHash(hashes: seq<seq<u8>>, i: nat, first: bool, sofar: string) returns (out: string)
    requires AllIds(hashes) && i < |hashes|
    ensures out + ToCome(hashes, i + 1, false) == sofar + ToCome(hashes, i, first)
  {
    assert hashes[i] in hashes;
    var id := UrlBytes.UrlEncode20Bytes(hashes[i]);
    if first {
      out := WriteFirst(sofar, InfoHash, id[..], HashPairs(hashes, i + 1));
    } else {
      out := WritePair(sofar, InfoHash, id[..], HashPairs(hashes, i + 1));
    }
  }

  // `Request::write`
  method Write(text: UrlText, request: Request, suffix: string) returns (out: string)
    requires Sized(request)
    ensures out == TextOf(text, request, suffix)
  {
    match request {
      case AnnounceRequest(a) => out := WriteAnnounce(text, a, suffix);
      case ScrapeRequest(hashes) => out := WriteScrape(hashes, suffix);
    }
  }

  // Info hashes and peer ids are arrays of twenty bytes.
  ghost predicate Sized(request: Request) {
    match request
    case AnnounceRequest(a) => |a.infoHash| == UrlBytes.LENGTH && |a.peerId| == UrlBytes.LENGTH
    case ScrapeRequest(hashes) => AllIds(hashes)
  }

  function TextOf(text: UrlText, request: Request, suffix: string): string {
    match request
    case AnnounceRequest(a) => RequestText(ANNOUNCE, suffix, Written(text, a))
    case ScrapeRequest(hashes) => RequestText(SCRAPE, suffix, HashPairs(hashes, 0))
  }

  // ------------------------------------------------ reading a query back

  ghost predicate AllBare(pairs: Pairs) {
    match pairs
    case End => true
    case Fault => false
    case More(pair, rest) => Bare(pair.key) && Bare(pair.value) && AllBare(rest)
  }

  lemma ShownPair(pair: Pair)
    requires Bare(pair.key) && Bare(pair.value)
    ensures '&' !in Show(pair) && '=' in Show(pair)
    ensures PairOf(Show(pair)) == pair && OneSign(Show(pair))
  {
    var shown := Show(pair);
    assert shown[|pair.key|] == '=';
    assert forall k :: 0 <= k < |pair.key| ==> shown[k] == pair.key[k] && shown[k] in pair.key;
    IndexFromIs(shown, '=', 0, |pair.key|);
    assert shown[..|pair.key|] == pair.key && shown[|pair.key| + 1..] == pair.value;
    OneSignIs(shown);
  }

  lemma {:induction false} SplitOfJoin(pairs: Pairs)
    requires AllBare(pairs) && pairs.More?
    ensures PairsOfPieces(Split(Join(pairs), '&')) == pairs
  {
    var shown, rest := Show(pairs.pair), pairs.rest;
    ShownPair(pairs.pair);
    if rest == End {
      assert Join(pairs) == shown;
      SplitSingle(shown, '&');
      OnePiece(shown);
    } else {
      assert Join(pairs) == shown + ['&'] + Join(rest);
      SplitCons(shown, '&', Join(rest));
      PiecesStep(shown, Split(Join(rest), '&'));
      SplitOfJoin(rest);
    }
  }

  // Pairs that are written one after the other are found again.
  lemma JoinIsRead(pairs: Pairs)
    requires AllBare(pairs)
    ensures PairsOfQuery(Join(pairs)) == pairs
  {
    if pairs.More? {
      LockstepIsPieces(Join(pairs));
      SplitOfJoin(pairs);
    }
  }

  // ------------------------------------------------ the request line

  // What stands between the first two spaces of a request.
  function Target(request: string): Option<string> {
    var a := IndexFrom(request, ' ', 0);
    if a == |request| then None
    else
      var b := IndexFrom(request, ' ', a + 1);
      if b == |request| then None else Some(request[a + 1..b])
  }

  lemma TargetOfParts(verb: string, path: string, rest: string)
    requires ' ' !in verb && ' ' !in path
    ensures Target(verb + " " + path + " " + rest) == Some(path)
  {
    var request := verb + " " + path + " " + rest;
    assert request == verb + (" " + path + " " + rest);
    var a, b := |verb|, |verb| + 1 + |path|;
    assert request[a] == ' ' && request[b] == ' ';
    assert request[a + 1..b] == path;
    assert forall k :: 0 <= k < a ==> request[k] == verb[k];
    assert forall k :: a + 1 <= k < b ==> request[k] == path[k - a - 1];
    IndexFromIs(request, ' ', 0, a);
    IndexFromIs(request, ' ', a + 1, b);
  }

  lemma TargetOfText(location: string, suffix: string, pairs: Pairs)
    requires ' ' !in location && ' ' !in suffix && ' ' !in Join(pairs)
    ensures Target(RequestText(location, suffix, pairs)) == Some((location + suffix) + "?" + Join(pairs))
  {
    var path := (location + suffix) + "?" + Join(pairs);
    var rest := "HTTP/1.1\r\n" + HOST + BLANK;
    assert "GET " == "GET" + " ";
    assert HTTP == " " + "HTTP/1.1\r\n";
    assert Foot() == " " + rest;
    assert Head(location, suffix) + Join(pairs) == "GET" + " " + path;
    assert RequestText(location, suffix, pairs) == "GET" + " " + path + " " + rest;
    TargetOfParts("GET", path, rest);
  }

  lemma RequestOfParts(text: UrlText, location: string, query: string)
    requires '?' !in location
    ensures RequestOf(text, location + "?" + query) ==
      if location == ANNOUNCE then
        match AnnounceOf(text, query) { case Err => Err case Ok(a) => Ok(AnnounceRequest(a)) }
      else if location == SCRAPE then
        match ScrapeOf(query) { case Err => Err case Ok(hashes) => Ok(ScrapeRequest(hashes)) }
      else Err
  {
    var path := location + "?" + query;
    assert path[|location|] == '?';
    IndexFromIs(path, '?', 0, |location|);
    assert path[..|location|] == location && path[|location| + 1..] == query;
  }

  lemma {:induction false} TailHasNoSpace(pairs: Pairs)
    requires AllBare(pairs)
    ensures ' ' !in Tail(pairs) && ' ' !in Join(pairs)
  {
    if pairs.More? {
      TailHasNoSpace(pairs.rest);
    }
  }

  // ------------------------------------------------ announces

  // The key the parser can take: at most a hundred bytes once it is encoded.
  ghost predicate KeyFits(text: UrlText, a: Announce) {
    a.key.Some? ==> |text.encode(a.key.value)| <= 100
  }

  lemma {:induction false} PlainLength(s: string)
    requires Unreserved(s)
    ensures Utf8Length(s) == |s|
  {
    if s != "" {
      PlainLength(s[..|s| - 1]);
      assert s[|s| - 1] in s;
    }
  }

  lemma GatherNamed(text: UrlText, f: Fields, field: Field, value: string, rest: Pairs)
    requires field != Unknown
    ensures Gather(text, f, More(Named(field, value), rest)) ==
      match Assign(text, f, field, value) { case Err => Err case Ok(g) => Gather(text, g, rest) }
  {
    NamesAreFields(field);
  }

  lemma EventRoundTrip(event: Event)
    requires event != Empty
    ensures ReadEvent(EventText(event)) == Some(event) && Bare(EventText(event))
  {
  }

  lemma GatherLast(text: UrlText, f: Fields)
    ensures Gather(text, f, LastPair()) == Ok(f)
  {
    GatherNamed(text, f, Compact, "1", End);
  }

  // What the options that were written add to fields read before them.
  function WithOptions(f: Fields, a: Announce): Fields {
    f.(event := if a.event == Empty then f.event else a.event,
       numwant := if a.numwant.None? then f.numwant else a.numwant,
       key := if a.key.None? then f.key else a.key)
  }

  lemma GatherKey(text: UrlText, a: Announce, f: Fields)
    requires text.Lawful()
    ensures Gather(text, f, AfterNumwant(text, a)) ==
      if KeyFits(text, a) then Ok(f.(key := if a.key.None? then f.key else a.key)) else Err
  {
    if a.key.Some? {
      var encoded := text.encode(a.key.value);
      GatherNamed(text, f, Key, encoded, LastPair());
      PlainLength(encoded);
      GatherLast(text, f.(key := a.key));
    } else {
      GatherLast(text, f);
    }
  }

  lemma GatherOptions(text: UrlText, a: Announce, f: Fields)
    requires text.Lawful()
    ensures Gather(text, f, AfterLeft(text, a)) == if KeyFits(text, a) then Ok(WithOptions(f, a)) else Err
  {
    var g := f;
    if a.event != Empty {
      EventRoundTrip(a.event);
      GatherNamed(text, f, EventField, EventText(a.event), AfterEvent(text, a));
      g := f.(event := a.event);
    }
    var h := g;
    if a.numwant.Some? {
      I128RoundTrip(a.numwant.value);
      GatherNamed(text, g, Numwant, Decimal(a.numwant.value), AfterNumwant(text, a));
      h := g.(numwant := a.numwant);
    }
    GatherKey(text, a, h);
  }

  lemma GatherNumbers(text: UrlText, a: Announce, f: Fields)
    ensures Gather(text, f, AfterPeerId(text, a)) ==
      var numbers := f.(port := Some(a.port), uploaded := Some(a.uploaded), downloaded := Some(a.downloaded),
                        left := Some(a.left));
      Gather(text, numbers, AfterLeft(text, a))
  {
    UnsignedRoundTrip(a.port, U16_MAX);
    UnsignedRoundTrip(a.uploaded, U64_MAX);
    UnsignedRoundTrip(a.downloaded, U64_MAX);
    UnsignedRoundTrip(a.left, U64_MAX);
    var rest := AfterLeft(text, a);
    var left := More(Named(Left, Decimal(a.left)), rest);
    var downloaded := More(Named(Downloaded, Decimal(a.downloaded)), left);
    var uploaded := More(Named(Uploaded, Decimal(a.uploaded)), downloaded);
    var f1 := f.(port := Some(a.port));
    var f2 := f1.(uploaded := Some(a.uploaded));
    var f3 := f2.(downloaded := Some(a.downloaded));
    GatherNamed(text, f, Port, Decimal(a.port), uploaded);
    GatherNamed(text, f1, Uploaded, Decimal(a.uploaded), downloaded);
    GatherNamed(text, f2, Downloaded, Decimal(a.downloaded), left);
    GatherNamed(text, f3, Left, Decimal(a.left), rest);
  }

  lemma GatherWritten(text: UrlText, a: Announce)
    requires text.Lawful() && Sized(AnnounceRequest(a))
    ensures Finish(Gather(text, NO_FIELDS, Written(text, a))) == if KeyFits(text, a) then Ok(a) else Err
  {
    UrlBytes.DecodeOfEncode(a.infoHash);
    UrlBytes.DecodeOfEncode(a.peerId);
    var f1 := NO_FIELDS.(infoHash := Some(a.infoHash));
    var f2 := f1.(peerId := Some(a.peerId));
    GatherNamed(text, NO_FIELDS, InfoHash, UrlBytes.Encode(a.infoHash), AfterInfoHash(text, a));
    GatherNamed(text, f1, PeerId, UrlBytes.Encode(a.peerId), AfterPeerId(text, a));
    GatherNumbers(text, a, f2);
    GatherOptions(text, a,
      f2.(port := Some(a.port), uploaded := Some(a.uploaded), downloaded := Some(a.downloaded), left := Some(a.left)));
  }

  lemma EncodedIsBare(bytes: seq<u8>)
    ensures Bare(UrlBytes.Encode(bytes))
  {
    UrlBytes.EncodedAlphabet(bytes);
  }

  lemma NamedIsBare(field: Field, value: string, rest: Pairs)
    requires field != Unknown && Bare(value) && AllBare(rest)
    ensures AllBare(More(Named(field, value), rest))
  {
    NamesArePlain(field);
  }

  lemma DecimalIsBare(n: nat)
    ensures Bare(Decimal(n))
  {
    assert forall c <- Decimal(n) :: IsDigit(c);
  }

  lemma OptionsAreBare(text: UrlText, a: Announce)
    requires text.Lawful()
    ensures AllBare(AfterLeft(text, a))
  {
    NamedIsBare(Compact, "1", End);
    if a.key.Some? {
      assert Unreserved(text.encode(a.key.value));
      NamedIsBare(Key, text.encode(a.key.value), LastPair());
    }
    if a.numwant.Some? {
      DecimalIsBare(a.numwant.value);
      NamedIsBare(Numwant, Decimal(a.numwant.value), AfterNumwant(text, a));
    }
    if a.event != Empty {
      EventRoundTrip(a.event);
      NamedIsBare(EventField, EventText(a.event), AfterEvent(text, a));
    }
  }

  lemma NumbersAreBare(text: UrlText, a: Announce)
    requires AllBare(AfterLeft(text, a))
    ensures AllBare(AfterPeerId(text, a))
  {
    DecimalIsBare(a.port);
    DecimalIsBare(a.uploaded);
    DecimalIsBare(a.downloaded);
    DecimalIsBare(a.left);
    var left := More(Named(Left, Decimal(a.left)), AfterLeft(text, a));
    var downloaded := More(Named(Downloaded, Decimal(a.downloaded)), left);
    var uploaded := More(Named(Uploaded, Decimal(a.uploaded)), downloaded);
    NamedIsBare(Left, Decimal(a.left), AfterLeft(text, a));
    NamedIsBare(Downloaded, Decimal(a.downloaded), left);
    NamedIsBare(Uploaded, Decimal(a.uploaded), downloaded);
    NamedIsBare(Port, Decimal(a.port), uploaded);
  }

  lemma WrittenIsBare(text: UrlText, a: Announce)
    requires text.Lawful()
    ensures AllBare(Written(text, a))
  {
    OptionsAreBare(text, a);
    NumbersAreBare(text, a);
    EncodedIsBare(a.infoHash);
    EncodedIsBare(a.peerId);
    NamedIsBare(PeerId, UrlBytes.Encode(a.peerId), AfterPeerId(text, a));
    NamedIsBare(InfoHash, UrlBytes.Encode(a.infoHash), AfterInfoHash(text, a));
  }

  // Every announce comes back as it was written, unless its encoded key is too
  // long: then the tracker refuses it.
  lemma AnnounceRoundTrip(text: UrlText, a: Announce)
    requires text.Lawful() && Sized(AnnounceRequest(a))
    ensures var target := Target(TextOf(text, AnnounceRequest(a), ""));
      && target.Some?
      && RequestOf(text, target.value) == if KeyFits(text, a) then Ok(AnnounceRequest(a)) else Err
  {
    var pairs := Written(text, a);
    WrittenIsBare(text, a);
    TailHasNoSpace(pairs);
    TargetOfText(ANNOUNCE, "", pairs);
    assert ANNOUNCE + "" == ANNOUNCE;
    RequestOfParts(text, ANNOUNCE, Join(pairs));
    JoinIsRead(pairs);
    GatherWritten(text, a);
  }

  // ------------------------------------------------ scrapes

  lemma {:induction false} HashPairsAreBare(hashes: seq<seq<u8>>, i: nat)
    requires i <= |hashes|
    ensures AllBare(HashPairs(hashes, i))
    decreases |hashes| - i
  {
    if i < |hashes| {
      HashPairsAreBare(hashes, i + 1);
      EncodedIsBare(hashes[i]);
      NamedIsBare(InfoHash, UrlBytes.Encode(hashes[i]), HashPairs(hashes, i + 1));
    }
  }

  lemma ReadHash(hashes: seq<seq<u8>>, hash: seq<u8>, rest: Pairs)
    requires |hash| == UrlBytes.LENGTH
    ensures GatherHashes(hashes, More(Named(InfoHash, UrlBytes.Encode(hash)), rest)) ==
      GatherHashes(hashes + [hash], rest)
  {
    UrlBytes.DecodeOfEncode(hash);
  }

  lemma {:induction false} HashPairsAreRead(hashes: seq<seq<u8>>, i: nat)
    requires AllIds(hashes) && i <= |hashes|
    ensures GatherHashes(hashes[..i], HashPairs(hashes, i)) == Ok(hashes)
    decreases |hashes| - i
  {
    if i == |hashes| {
      assert hashes[..i] == hashes;
    } else {
      assert hashes[i] in hashes;
      assert hashes[..i + 1] == hashes[..i] + [hashes[i]];
      ReadHash(hashes[..i], hashes[i], HashPairs(hashes, i + 1));
      HashPairsAreRead(hashes, i + 1);
    }
  }

  // Every scrape comes back as it was written, unless it asks for nothing.
  lemma ScrapeRoundTrip(text: UrlText, hashes: seq<seq<u8>>)
    requires AllIds(hashes)
    ensures var target := Target(TextOf(text, ScrapeRequest(hashes), ""));
      && target.Some?
      && RequestOf(text, target.value) == if hashes == [] then Err else Ok(ScrapeRequest(hashes))
  {
    var pairs := HashPairs(hashes, 0);
    HashPairsAreBare(hashes, 0);
    HashPairsAreRead(hashes, 0);
    TailHasNoSpace(pairs);
    TargetOfText(SCRAPE, "", pairs);
    assert SCRAPE + "" == SCRAPE;
    RequestOfParts(text, SCRAPE, Join(pairs));
    JoinIsRead(pairs);
    assert hashes[..0] == [];
  }
}
