// What a suffix on the path of a written request does to reading it back.
module HttpSuffix {
  import opened Base
  import opened Text
  import opened Queries
  import opened HttpRequests
  import opened HttpCodec
  import UrlBytes

  // A suffix the header parser leaves in the path as it is: without a space or a
  // control character.
  ghost predicate Clean(suffix: string) {
    forall c <- suffix :: c > ' ' && c != '\U{007F}'
  }

  ghost function AllButLast(pieces: seq<string>): seq<string>
    requires pieces != []
  {
    pieces[..|pieces| - 1]
  }

  ghost function Last(pieces: seq<string>): string
    requires pieces != []
  {
    pieces[|pieces| - 1]
  }

  // The segments of a suffix that begins with a question mark: all but the last
  // are over before the request's own pairs begin.
  ghost function WholeSegments(suffix: string): seq<string>
    requires suffix != ""
  {
    AllButLast(Split(suffix[1..], '&'))
  }

  // The last segment, which runs on into the request's own query.
  ghost function OpenSegment(suffix: string): string
    requires suffix != ""
  {
    Last(Split(suffix[1..], '&'))
  }

  ghost predicate AllOneSign(pieces: seq<string>) {
    forall p <- pieces :: OneSign(p)
  }

  // ------------------------------------------------ the query that is read

  // Segments that stand before further pairs.
  ghost function Chain(pieces: seq<string>, end: Pairs): Pairs {
    if pieces == [] then end
    else if '=' !in pieces[0] then Fault
    else More(PairOf(pieces[0]), if OneSign(pieces[0]) then Chain(pieces[1..], end) else Fault)
  }

  lemma ChainStep(first: string, pieces: seq<string>, end: Pairs)
    ensures Chain([first] + pieces, end) ==
      if '=' !in first then Fault
      else More(PairOf(first), if OneSign(first) then Chain(pieces, end) else Fault)
  {
    assert ([first] + pieces)[1..] == pieces;
  }

  lemma SignSomewhere(query: string)
    requires '=' in query
    ensures AnySign(Split(query, '&'))
  {
    IndexFromFinds(query, '=', 0);
    SegmentsKeepSigns(query, 0);
  }

  lemma StepOfQuery(first: string, query: string)
    requires '&' !in first && '=' in query
    ensures PairsOfQuery(first + ['&'] + query) ==
      if '=' !in first then Fault
      else More(PairOf(first), if OneSign(first) then PairsOfQuery(query) else Fault)
  {
    LockstepIsPieces(first + ['&'] + query);
    LockstepIsPieces(query);
    SplitCons(first, '&', query);
    SignSomewhere(query);
    AnySignStep(first, Split(query, '&'));
    if '=' in first {
      PiecesStep(first, Split(query, '&'));
    }
  }

  lemma CutSegment(x: string) returns (first: string, rest: string)
    requires '&' in x
    ensures '&' !in first && x == first + ['&'] + rest
  {
    IndexFromFinds(x, '&', 0);
    var i := IndexFrom(x, '&', 0);
    first, rest := x[..i], x[i + 1..];
  }

  lemma LongerList(first: string, pieces: seq<string>)
    requires pieces != []
    ensures AllButLast([first] + pieces) == [first] + AllButLast(pieces)
    ensures Last([first] + pieces) == Last(pieces)
  {
  }

  // Text in front of a query: its segments are read first, and the last of them
  // runs on into the query.
  lemma {:induction false} QueryAfter(x: string, query: string)
    requires '=' in query
    ensures PairsOfQuery(x + query) ==
      Chain(AllButLast(Split(x, '&')), PairsOfQuery(Last(Split(x, '&')) + query))
    decreases |x|
  {
    if '&' !in x {
      SplitSingle(x, '&');
    } else {
      var first, rest := CutSegment(x);
      assert x + query == first + ['&'] + (rest + query);
      StepOfQuery(first, rest + query);
      QueryAfter(rest, query);
      SplitCons(first, '&', rest);
      LongerList(first, Split(rest, '&'));
      ChainStep(first, AllButLast(Split(rest, '&')), PairsOfQuery(Last(Split(rest, '&')) + query));
    }
  }

  // ------------------------------------------------ the segment in between

  // The pairs from the open segment on. A question mark and the first pair follow
  // it: without an equal sign of its own it becomes part of that pair's name, and
  // otherwise the pair becomes part of its value.
  ghost function Glued(open: string, pair: Pair, rest: Pairs): Pairs {
    if '=' !in open then More(Pair(open + "?" + pair.key, pair.value), rest)
    else
      More(Pair(PairOf(open).key, PairOf(open).value + "?" + Show(pair)), if rest == End then End else Fault)
  }

  lemma PairOfLonger(piece: string, more: string)
    requires '=' in piece
    ensures PairOf(piece + more) == Pair(PairOf(piece).key, PairOf(piece).value + more)
  {
    IndexFromFinds(piece, '=', 0);
    var j := IndexFrom(piece, '=', 0);
    IndexFromIs(piece + more, '=', 0, j);
    assert (piece + more)[..j] == piece[..j];
    assert (piece + more)[j + 1..] == piece[j + 1..] + more;
  }

  lemma Regroup(open: string, shown: string, tail: string)
    ensures open + "?" + (shown + tail) == (open + "?" + shown) + tail
  {
  }

  lemma ShownGlued(open: string, pair: Pair)
    ensures open + "?" + Show(pair) == Show(Pair(open + "?" + pair.key, pair.value))
  {
    Regroup(open, pair.key, "=" + pair.value);
    assert Show(pair) == pair.key + ("=" + pair.value);
    assert Show(Pair(open + "?" + pair.key, pair.value)) == open + "?" + pair.key + ("=" + pair.value);
  }

  lemma BareName(open: string, name: string)
    requires Bare(open) && Bare(name)
    ensures Bare(open + "?" + name)
  {
  }

  lemma NameGrows(open: string, pair: Pair, rest: Pairs)
    requires Bare(open) && AllBare(More(pair, rest))
    ensures PairsOfQuery(open + "?" + Join(More(pair, rest))) == Glued(open, pair, rest)
  {
    var glued := Pair(open + "?" + pair.key, pair.value);
    BareName(open, pair.key);
    JoinIsRead(More(glued, rest));
    ShownGlued(open, pair);
    Regroup(open, Show(pair), Tail(rest));
  }

  lemma OpenPiece(open: string, pair: Pair)
    requires '=' in open && '&' !in open && Bare(pair.key) && Bare(pair.value)
    ensures var piece := open + "?" + Show(pair);
      && '&' !in piece && '=' in piece
      && PairOf(piece) == Pair(PairOf(open).key, PairOf(open).value + "?" + Show(pair))
      && '=' in PairOf(piece).value
  {
    ShownPair(pair);
    PairOfLonger(open, "?" + Show(pair));
    assert open + "?" + Show(pair) == open + ("?" + Show(pair));
    assert PairOf(open).value + "?" + Show(pair) == PairOf(open).value + ("?" + Show(pair));
  }

  lemma TailOpens(piece: string, rest: Pairs)
    requires rest.More?
    ensures piece + Tail(rest) == piece + ['&'] + Join(rest)
  {
    assert Tail(rest) == ['&'] + Join(rest);
  }

  lemma JoinHasSign(pairs: Pairs)
    requires AllBare(pairs) && pairs.More?
    ensures '=' in Join(pairs)
  {
    ShownPair(pairs.pair);
  }

  // A piece with a second equal sign ends the walk, unless it is the last.
  lemma SurplusSign(piece: string, rest: Pairs)
    requires '&' !in piece && '=' in piece && '=' in PairOf(piece).value && AllBare(rest)
    ensures PairsOfQuery(piece + Tail(rest)) == More(PairOf(piece), if rest == End then End else Fault)
  {
    if rest == End {
      assert piece + Tail(rest) == piece;
      LockstepIsPieces(piece);
      SplitSingle(piece, '&');
      OnePiece(piece);
    } else {
      TailOpens(piece, rest);
      JoinHasSign(rest);
      OneSignIs(piece);
      StepOfQuery(piece, Join(rest));
    }
  }

  lemma ValueGrows(open: string, pair: Pair, rest: Pairs)
    requires '=' in open && '&' !in open && AllBare(More(pair, rest))
    ensures PairsOfQuery(open + "?" + Join(More(pair, rest))) == Glued(open, pair, rest)
  {
    OpenPiece(open, pair);
    Regroup(open, Show(pair), Tail(rest));
    SurplusSign(open + "?" + Show(pair), rest);
  }

  lemma {:induction false} LastPiece(x: string)
    requires ' ' !in x
    ensures '&' !in Last(Split(x, '&')) && ' ' !in Last(Split(x, '&'))
    decreases |x|
  {
    if '&' !in x {
      SplitSingle(x, '&');
    } else {
      var first, rest := CutSegment(x);
      assert ' ' !in rest;
      LastPiece(rest);
      SplitCons(first, '&', rest);
      LongerList(first, Split(rest, '&'));
    }
  }

  // The pairs that are read when a request with at least one pair is written
  // behind a suffix.
  lemma SuffixedQuery(suffix: string, pair: Pair, rest: Pairs)
    requires suffix != "" && Clean(suffix) && AllBare(More(pair, rest))
    ensures PairsOfQuery(suffix[1..] + "?" + Join(More(pair, rest))) ==
      Chain(WholeSegments(suffix), Glued(OpenSegment(suffix), pair, rest))
  {
    var x, open, joined := suffix[1..], OpenSegment(suffix), Join(More(pair, rest));
    assert forall c <- x :: c in suffix;
    LastPiece(x);
    JoinHasSign(More(pair, rest));
    QueryAfter(x, "?" + joined);
    MarkBetween(x, joined);
    MarkBetween(open, joined);
    if '=' in open {
      ValueGrows(open, pair, rest);
    } else {
      NameGrows(open, pair, rest);
    }
  }

  lemma MarkBetween(a: string, b: string)
    ensures a + "?" + b == a + ("?" + b)
  {
  }

  // ------------------------------------------------ what the parsers make of it

  lemma AllOneSignStep(pieces: seq<string>)
    requires pieces != []
    ensures AllOneSign(pieces) <==> OneSign(pieces[0]) && AllOneSign(pieces[1..])
  {
    assert pieces == [pieces[0]] + pieces[1..];
  }

  lemma SplitPairsStep(pieces: seq<string>)
    requires pieces != [] && AllOneSign(pieces)
    ensures '=' in pieces[0] && AllOneSign(pieces[1..])
    ensures SplitPairs(pieces) == More(PairOf(pieces[0]), SplitPairs(pieces[1..]))
  {
    AllOneSignStep(pieces);
    NoSignNoSplit(pieces[0]);
    OneSignIs(pieces[0]);
  }

  lemma {:induction false} GatherChain(text: UrlText, f: Fields, pieces: seq<string>, end: Pairs)
    ensures Gather(text, f, Chain(pieces, end)) ==
      if !AllOneSign(pieces) then Err
      else
        match Gather(text, f, SplitPairs(pieces))
        case Err => Err
        case Ok(g) => Gather(text, g, end)
    decreases |pieces|
  {
    if pieces != [] {
      AllOneSignStep(pieces);
      if AllOneSign(pieces) {
        SplitPairsStep(pieces);
        var r := Absorb(text, f, PairOf(pieces[0]));
        if r.Ok? {
          GatherChain(text, r.value, pieces[1..], end);
        }
      } else if '=' in pieces[0] {
        var r := Absorb(text, f, PairOf(pieces[0]));
        if r.Ok? && OneSign(pieces[0]) {
          GatherChain(text, r.value, pieces[1..], end);
        }
      }
    }
  }

  lemma {:induction false} ChainReadable(pieces: seq<string>, end: Pairs)
    ensures HashesReadable(Chain(pieces, end)) <==>
      AllOneSign(pieces) && HashesReadable(SplitPairs(pieces)) && HashesReadable(end)
    decreases |pieces|
  {
    if pieces != [] {
      AllOneSignStep(pieces);
      ChainReadable(pieces[1..], end);
      if AllOneSign(pieces) {
        SplitPairsStep(pieces);
      }
    }
  }

  lemma Associates(id: seq<u8>, front: seq<seq<u8>>, back: seq<seq<u8>>)
    ensures [id] + (front + back) == ([id] + front) + back
  {
  }

  lemma HashesInStep(pair: Pair, hashes: seq<seq<u8>>, pairs: Pairs, before: Pairs)
    requires HashesIn(pairs) == HashesIn(before) + hashes
    ensures HashesIn(More(pair, pairs)) == HashesIn(More(pair, before)) + hashes
  {
    if IsHash(pair) && ReadId(pair.value).Some? {
      Associates(ReadId(pair.value).value, HashesIn(before), hashes);
    }
  }

  lemma {:induction false} HashesOfChain(pieces: seq<string>, end: Pairs)
    requires AllOneSign(pieces)
    ensures HashesIn(Chain(pieces, end)) == HashesIn(SplitPairs(pieces)) + HashesIn(end)
    decreases |pieces|
  {
    if pieces != [] {
      var rest := pieces[1..];
      SplitPairsStep(pieces);
      AllOneSignStep(pieces);
      HashesOfChain(rest, end);
      HashesInStep(PairOf(pieces[0]), HashesIn(end), Chain(rest, end), SplitPairs(rest));
      assert Chain(pieces, end) == More(PairOf(pieces[0]), Chain(rest, end));
    }
  }

  // A name that a question mark has become part of is none the parsers know.
  lemma GluedIsUnknown(open: string, name: string)
    ensures FieldOf(open + "?" + name) == Unknown && !IsHash(Pair(open + "?" + name, ""))
  {
    var glued := open + "?" + name;
    assert glued[|open|] == '?';
    KnownHasNoMark(glued);
  }

  lemma KnownHasNoMark(name: string)
    requires '?' in name
    ensures FieldOf(name) == Unknown
  {
  }

  // ------------------------------------------------ requests with a suffix

  // What the parser makes of the location of a request and a query.
  function ReadAt(text: UrlText, location: string, query: string): Result<Request> {
    if location == ANNOUNCE then
      match AnnounceOf(text, query) { case Err => Err case Ok(a) => Ok(AnnounceRequest(a)) }
    else
      match ScrapeOf(query) { case Err => Err case Ok(hashes) => Ok(ScrapeRequest(hashes)) }
  }

  lemma NoSuchLocation(location: string, more: string)
    requires location == ANNOUNCE || location == SCRAPE
    requires more != ""
    ensures location + more != ANNOUNCE && location + more != SCRAPE
  {
    assert |location + more| > |location|;
    assert (location + more)[1] == location[1];
    assert ANNOUNCE[1] == 'a' && SCRAPE[1] == 's';
  }

  lemma LongerPath(text: UrlText, location: string, more: string)
    requires location == ANNOUNCE || location == SCRAPE
    ensures RequestOf(text, location + more) ==
      if more != "" && more[0] == '?' then ReadAt(text, location, more[1..]) else Err
  {
    var path, mark := location + more, IndexFrom(more, '?', 0);
    IndexFromFinds(more, '?', 0);
    assert '?' !in location;
    if mark < |more| {
      var found, query := location + more[..mark], more[mark + 1..];
      assert '?' !in found;
      assert path == found + "?" + query;
      RequestOfParts(text, found, query);
      if mark == 0 {
        assert found == location;
      } else {
        NoSuchLocation(location, more[..mark]);
      }
    } else {
      assert forall k :: 0 <= k < |path| ==> path[k] != '?';
      IndexFromIs(path, '?', 0, |path|);
    }
  }

  function LocationOf(request: Request): string {
    match request
    case AnnounceRequest(_) => ANNOUNCE
    case ScrapeRequest(_) => SCRAPE
  }

  function PairsOfRequest(text: UrlText, request: Request): Pairs {
    match request
    case AnnounceRequest(a) => Written(text, a)
    case ScrapeRequest(hashes) => HashPairs(hashes, 0)
  }

  lemma RequestIsBare(text: UrlText, request: Request)
    requires text.Lawful()
    ensures AllBare(PairsOfRequest(text, request))
  {
    match request {
      case AnnounceRequest(a) => WrittenIsBare(text, a);
      case ScrapeRequest(hashes) => HashPairsAreBare(hashes, 0);
    }
  }

  // What is read of a request with a suffix: nothing, unless the suffix begins
  // with a question mark; then the query is the rest of the suffix, another
  // question mark and the query that was written.
  ghost predicate ReadWith(text: UrlText, request: Request, suffix: string, r: Result<Request>)
    requires suffix != ""
  {
    r == if suffix[0] != '?' then Err
         else ReadAt(text, LocationOf(request), suffix[1..] + "?" + Join(PairsOfRequest(text, request)))
  }

  lemma PathOfSuffix(location: string, suffix: string, joined: string)
    requires suffix != ""
    ensures (location + suffix) + "?" + joined == location + (suffix + "?" + joined)
    ensures (suffix + "?" + joined)[0] == suffix[0]
    ensures (suffix + "?" + joined)[1..] == suffix[1..] + "?" + joined
  {
  }

  lemma SuffixIsRead(text: UrlText, request: Request, suffix: string)
    requires text.Lawful() && suffix != "" && Clean(suffix)
    ensures var target := Target(TextOf(text, request, suffix));
      target.Some? && ReadWith(text, request, suffix, RequestOf(text, target.value))
  {
    var location, pairs := LocationOf(request), PairsOfRequest(text, request);
    RequestIsBare(text, request);
    TailHasNoSpace(pairs);
    TargetOfText(location, suffix, pairs);
    PathOfSuffix(location, suffix, Join(pairs));
    LongerPath(text, location, suffix + "?" + Join(pairs));
  }

  // ------------------------------------------------ announces

  // An announce that says what was written, except that the info hash is the last
  // one in the suffix and options that were not written are taken from there.
  ghost predicate SaysWith(text: UrlText, last: map<Field, string>, a: Announce, read: Announce) {
    && InfoHash in last && ReadId(last[InfoHash]) == Some(read.infoHash)
    && read.peerId == a.peerId && read.port == a.port
    && read.uploaded == a.uploaded && read.downloaded == a.downloaded && read.left == a.left
    && (if a.event == Empty && EventField in last
        then last[EventField] == WordOf(read.event) else read.event == a.event)
    && (if a.numwant == None && Numwant in last
        then Prefers(last[Numwant], read.numwant) else read.numwant == a.numwant)
    && (if a.key == None && Key in last
        then ReadKey(text, last[Key]) == read.key && read.key.Some? else read.key == a.key)
  }

  // The suffixes an announce is accepted with.
  ghost predicate Admits(text: UrlText, suffix: string, a: Announce)
    requires suffix != ""
  {
    && suffix[0] == '?'
    && '=' !in OpenSegment(suffix)
    && AllOneSign(WholeSegments(suffix))
    && AllReadable(text, SplitPairs(WholeSegments(suffix)))
    && InfoHash in LastValues(SplitPairs(WholeSegments(suffix)))
    && KeyFits(text, a)
  }

  // The fields after the pairs that follow the info hash.
  function WithRest(f: Fields, a: Announce): Fields {
    WithOptions(
      f.(peerId := Some(a.peerId), port := Some(a.port), uploaded := Some(a.uploaded),
         downloaded := Some(a.downloaded), left := Some(a.left)), a)
  }

  lemma GatherRest(text: UrlText, a: Announce, f: Fields)
    requires text.Lawful() && Sized(AnnounceRequest(a))
    ensures Gather(text, f, AfterInfoHash(text, a)) == if KeyFits(text, a) then Ok(WithRest(f, a)) else Err
  {
    UrlBytes.DecodeOfEncode(a.peerId);
    var g := f.(peerId := Some(a.peerId));
    GatherNamed(text, f, PeerId, UrlBytes.Encode(a.peerId), AfterPeerId(text, a));
    GatherNumbers(text, a, g);
    GatherOptions(text, a,
      g.(port := Some(a.port), uploaded := Some(a.uploaded), downloaded := Some(a.downloaded), left := Some(a.left)));
  }

  lemma GatherOpen(text: UrlText, f: Fields, open: string, pair: Pair, rest: Pairs)
    requires rest != End
    ensures Gather(text, f, Glued(open, pair, rest)) == if '=' !in open then Gather(text, f, rest) else Err
  {
    GluedIsUnknown(open, pair.key);
  }

  lemma GatherGlued(text: UrlText, f: Fields, open: string, a: Announce)
    requires text.Lawful() && Sized(AnnounceRequest(a))
    ensures Gather(text, f, Glued(open, Named(InfoHash, UrlBytes.Encode(a.infoHash)), AfterInfoHash(text, a))) ==
      if '=' !in open && KeyFits(text, a) then Ok(WithRest(f, a)) else Err
  {
    GatherOpen(text, f, open, Named(InfoHash, UrlBytes.Encode(a.infoHash)), AfterInfoHash(text, a));
    GatherRest(text, a, f);
  }

  lemma FinishWith(text: UrlText, last: map<Field, string>, a: Announce)
    requires AllValuesReadable(text, last)
    ensures var r := Finish(Ok(WithRest(Overlay(text, NO_FIELDS, last), a)));
      if InfoHash in last then r.Ok? && SaysWith(text, last, a, r.value) else r == Err
  {
    RequiredAreRead(text, last);
    OptionalAreRead(text, last);
    var f := Overlay(text, NO_FIELDS, last);
    if EventField in last {
      EventIsWord(last[EventField], f.event);
    }
    if Numwant in last {
      NumwantIsPreferred(last[Numwant], f.numwant);
    }
  }

  lemma AnnounceReadWith(text: UrlText, a: Announce, suffix: string)
    requires text.Lawful() && Sized(AnnounceRequest(a)) && suffix != "" && Clean(suffix) && suffix[0] == '?'
    ensures var r := AnnounceOf(text, suffix[1..] + "?" + Join(Written(text, a)));
      if Admits(text, suffix, a)
      then r.Ok? && SaysWith(text, LastValues(SplitPairs(WholeSegments(suffix))), a, r.value)
      else r == Err
  {
    var whole, open := WholeSegments(suffix), OpenSegment(suffix);
    var first, rest := Named(InfoHash, UrlBytes.Encode(a.infoHash)), AfterInfoHash(text, a);
    WrittenIsBare(text, a);
    SuffixedQuery(suffix, first, rest);
    GatherChain(text, NO_FIELDS, whole, Glued(open, first, rest));
    if AllOneSign(whole) {
      var pairs := SplitPairs(whole);
      GatherMeans(text, NO_FIELDS, pairs);
      if AllReadable(text, pairs) {
        GatherGlued(text, Overlay(text, NO_FIELDS, LastValues(pairs)), open, a);
        LastAreReadable(text, pairs);
        FinishWith(text, LastValues(pairs), a);
      }
    }
  }

  // What a suffix does to an announce: which suffixes it is accepted with and what
  // is read then, in terms of the segments of the suffix.
  lemma AnnounceWithSuffix(text: UrlText, a: Announce, suffix: string)
    requires text.Lawful() && Sized(AnnounceRequest(a)) && suffix != "" && Clean(suffix)
    ensures var target := Target(TextOf(text, AnnounceRequest(a), suffix));
      && target.Some?
      && var r := RequestOf(text, target.value);
         if Admits(text, suffix, a)
         then && r.Ok? && r.value.AnnounceRequest?
              && SaysWith(text, LastValues(SplitPairs(WholeSegments(suffix))), a, r.value.announce)
         else r == Err
  {
    SuffixIsRead(text, AnnounceRequest(a), suffix);
    if suffix[0] == '?' {
      AnnounceReadWith(text, a, suffix);
    }
  }

  lemma SaysOneThing(text: UrlText, last: map<Field, string>, a: Announce, read: Announce)
    requires SaysWith(text, last, a, read)
    ensures SaysWith(text, last, a, a) <==> read == a
  {
    WordsDiffer(a.event, read.event);
  }

  // It comes back as it was written exactly when the suffix names the same info
  // hash and contradicts nothing that was left to its default.
  lemma AnnounceComesBack(text: UrlText, a: Announce, suffix: string)
    requires text.Lawful() && Sized(AnnounceRequest(a)) && suffix != "" && Clean(suffix)
    ensures var target := Target(TextOf(text, AnnounceRequest(a), suffix));
      && target.Some?
      && (RequestOf(text, target.value) == Ok(AnnounceRequest(a)) <==>
            Admits(text, suffix, a) && SaysWith(text, LastValues(SplitPairs(WholeSegments(suffix))), a, a))
  {
    AnnounceWithSuffix(text, a, suffix);
    if Admits(text, suffix, a) {
      var r := RequestOf(text, Target(TextOf(text, AnnounceRequest(a), suffix)).value);
      SaysOneThing(text, LastValues(SplitPairs(WholeSegments(suffix))), a, r.value.announce);
    }
  }

  // ------------------------------------------------ scrapes

  // The suffixes a scrape is accepted with. A single hash is lost to the open
  // segment, so the suffix has to name one; if the segment has an equal sign, what
  // was written is part of its value and nothing may follow.
  ghost predicate ScrapeAdmits(suffix: string, hashes: seq<seq<u8>>)
    requires suffix != ""
  {
    && suffix[0] == '?'
    && AllOneSign(WholeSegments(suffix))
    && HashesReadable(SplitPairs(WholeSegments(suffix)))
    && (if |hashes| > 1 then '=' !in OpenSegment(suffix)
        else && HashesIn(SplitPairs(WholeSegments(suffix))) != []
             && ('=' in OpenSegment(suffix) ==> !IsHash(PairOf(OpenSegment(suffix)))))
  }

  lemma {:induction false} DecodeLength(value: string, count: nat)
    ensures UrlBytes.Decode(value, count).Some? ==> |value| <= 3 * count
    decreases count
  {
    if count > 0 && UrlBytes.NextByte(value).Some? {
      var used := UrlBytes.NextByte(value).value.1;
      if used <= |value| {
        DecodeLength(value[used..], count - 1);
      }
    }
  }

  lemma LaterHashes(hashes: seq<seq<u8>>)
    requires AllIds(hashes) && hashes != []
    ensures HashesReadable(HashPairs(hashes, 1)) && HashesIn(HashPairs(hashes, 1)) == hashes[1..]
  {
    HashPairsAreRead(hashes, 1);
    GatherHashesMeans(hashes[..1], HashPairs(hashes, 1));
    assert hashes == hashes[..1] + hashes[1..];
  }

  lemma GluedHash(open: string, hash: seq<u8>, rest: Pairs)
    requires |hash| == UrlBytes.LENGTH
    ensures var glued := Glued(open, Named(InfoHash, UrlBytes.Encode(hash)), rest);
      && (HashesReadable(glued) <==>
            if '=' !in open then HashesReadable(rest) else rest == End && !IsHash(PairOf(open)))
      && (HashesReadable(glued) ==> HashesIn(glued) == if '=' !in open then HashesIn(rest) else [])
  {
    var pair := Named(InfoHash, UrlBytes.Encode(hash));
    GluedIsUnknown(open, NameOf(InfoHash));
    if '=' in open {
      var value := PairOf(open).value + "?" + Show(pair);
      DecodeLength(value, UrlBytes.LENGTH);
      assert |value| > 60;
    }
  }

  lemma ScrapeReadWith(hashes: seq<seq<u8>>, suffix: string)
    requires AllIds(hashes) && hashes != [] && suffix != "" && Clean(suffix) && suffix[0] == '?'
    ensures ScrapeOf(suffix[1..] + "?" + Join(HashPairs(hashes, 0))) ==
      if ScrapeAdmits(suffix, hashes) then Ok(HashesIn(SplitPairs(WholeSegments(suffix))) + hashes[1..]) else Err
  {
    var whole, open := WholeSegments(suffix), OpenSegment(suffix);
    var first, rest := Named(InfoHash, UrlBytes.Encode(hashes[0])), HashPairs(hashes, 1);
    HashPairsAreBare(hashes, 0);
    SuffixedQuery(suffix, first, rest);
    LaterHashes(hashes);
    assert hashes[0] in hashes;
    GluedHash(open, hashes[0], rest);
    ChainReadable(whole, Glued(open, first, rest));
    if AllOneSign(whole) {
      HashesOfChain(whole, Glued(open, first, rest));
    }
    LockstepIsPieces(suffix[1..] + "?" + Join(HashPairs(hashes, 0)));
    ScrapeMeans(suffix[1..] + "?" + Join(HashPairs(hashes, 0)));
  }

  // What a suffix does to a scrape: the hashes of the suffix take the place of the
  // first that was written.
  lemma ScrapeWithSuffix(text: UrlText, hashes: seq<seq<u8>>, suffix: string)
    requires text.Lawful() && AllIds(hashes) && hashes != [] && suffix != "" && Clean(suffix)
    ensures var target := Target(TextOf(text, ScrapeRequest(hashes), suffix));
      && target.Some?
      && RequestOf(text, target.value) ==
           if ScrapeAdmits(suffix, hashes)
           then Ok(ScrapeRequest(HashesIn(SplitPairs(WholeSegments(suffix))) + hashes[1..]))
           else Err
  {
    SuffixIsRead(text, ScrapeRequest(hashes), suffix);
    if suffix[0] == '?' {
      ScrapeReadWith(hashes, suffix);
    }
  }

  lemma FrontIsFirst(front: seq<seq<u8>>, hashes: seq<seq<u8>>)
    requires hashes != []
    ensures front + hashes[1..] == hashes <==> front == [hashes[0]]
  {
    assert hashes == [hashes[0]] + hashes[1..];
    if front + hashes[1..] == hashes {
      assert |front| == 1;
      assert (front + hashes[1..])[0] == front[0];
    }
  }

  // It comes back as it was written exactly when the suffix names its first hash
  // and no other.
  lemma ScrapeComesBack(text: UrlText, hashes: seq<seq<u8>>, suffix: string)
    requires text.Lawful() && AllIds(hashes) && hashes != [] && suffix != "" && Clean(suffix)
    ensures var target := Target(TextOf(text, ScrapeRequest(hashes), suffix));
      && target.Some?
      && (RequestOf(text, target.value) == Ok(ScrapeRequest(hashes)) <==>
            ScrapeAdmits(suffix, hashes) && HashesIn(SplitPairs(WholeSegments(suffix))) == [hashes[0]])
  {
    ScrapeWithSuffix(text, hashes, suffix);
    if ScrapeAdmits(suffix, hashes) {
      FrontIsFirst(HashesIn(SplitPairs(WholeSegments(suffix))), hashes);
    }
  }

  // A scrape of nothing, refused without a suffix, is read as the hashes of the
  // suffix.
  lemma EmptyScrapeWithSuffix(text: UrlText, suffix: string)
    requires text.Lawful() && suffix != "" && Clean(suffix)
    ensures var target := Target(TextOf(text, ScrapeRequest([]), suffix));
      && target.Some?
      && var pairs := PairsOfPieces(Split(suffix[1..] + "?", '&'));
         RequestOf(text, target.value) ==
           if suffix[0] == '?' && HashesReadable(pairs) && HashesIn(pairs) != []
           then Ok(ScrapeRequest(HashesIn(pairs))) else Err
  {
    SuffixIsRead(text, ScrapeRequest([]), suffix);
    ScrapeMeans(suffix[1..] + "?");
    assert Join(HashPairs([], 0)) == "";
    assert suffix[1..] + "?" + "" == suffix[1..] + "?";
  }

  lemma MarkAlone()
    ensures Clean("?") && WholeSegments("?") == [] && OpenSegment("?") == ""
    ensures forall hashes: seq<seq<u8>> :: |hashes| > 1 ==> ScrapeAdmits("?", hashes)
    ensures HashesIn(SplitPairs(WholeSegments("?"))) == []
  {
    assert "?"[1..] == "";
    SplitSingle("", '&');
  }

  // So a lone question mark costs a scrape its first hash, and nobody is told.
  lemma MarkLosesHash(text: UrlText, hashes: seq<seq<u8>>)
    requires text.Lawful() && AllIds(hashes) && |hashes| > 1
    ensures var target := Target(TextOf(text, ScrapeRequest(hashes), "?"));
      target.Some? && RequestOf(text, target.value) == Ok(ScrapeRequest(hashes[1..]))
  {
    MarkAlone();
    ScrapeWithSuffix(text, hashes, "?");
    assert [] + hashes[1..] == hashes[1..];
  }
}
