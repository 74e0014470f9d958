// Announce and scrape requests as text: the writer, the parser, and what the
// parser makes of every query string.
module HttpRequests {
  import opened Base
  import opened Text
  import opened Queries
  import UrlBytes

  datatype Event = Started | Stopped | Completed | Empty

  datatype Announce = Announce(
    infoHash: seq<u8>, peerId: seq<u8>, port: u16,
    uploaded: u64, downloaded: u64, left: u64,
    event: Event, numwant: Option<u64>, key: Option<string>)

  datatype Request =
    | AnnounceRequest(announce: Announce)
    | ScrapeRequest(infoHashes: seq<seq<u8>>)

  // Percent-encoding of free text is a library's; what is used of it is that
  // decoding undoes encoding and that encoded text is unreserved characters and
  // percent signs.
  datatype UrlText = UrlText(encode: string -> string, decode: string -> Option<string>) {
    ghost predicate Lawful() {
      forall s :: decode(encode(s)) == Some(s) && Unreserved(encode(s))
    }
  }

  ghost predicate Unreserved(s: string) {
    forall c <- s ::
      IsDigit(c) || 'a' <= c <= 'z' || 'A' <= c <= 'Z' || c in "-_.~%"
  }

  // No character that delimits anything in a request line or a query.
  ghost predicate Bare(s: string) {
    forall c <- s :: c != ' ' && c != '&' && c != '='
  }

  const MAX_KEY_BYTES := 100

  // str::len
  function Utf8Length(s: string): nat {
    if s == "" then 0
    else
      var n := |s| - 1;
      var c := s[n] as int;
      Utf8Length(s[..n]) + if c < 0x80 then 1 else if c < 0x800 then 2 else if c < 0x1_0000 then 3 else 4
  }

  // ------------------------------------------------------------ fields

  datatype Field =
    | InfoHash | PeerId | Port | Left | Uploaded | Downloaded
    | EventField | Compact | Numwant | Key | Unknown

  function FieldOf(name: string): Field {
    if name == "info_hash" then InfoHash
    else if name == "peer_id" then PeerId
    else if name == "port" then Port
    else if name == "left" then Left
    else if name == "uploaded" then Uploaded
    else if name == "downloaded" then Downloaded
    else if name == "event" then EventField
    else if name == "compact" then Compact
    else if name == "numwant" then Numwant
    else if name == "key" then Key
    else Unknown
  }

  function NameOf(field: Field): string
    requires field != Unknown
  {
    match field
    case InfoHash => "info_hash"
    case PeerId => "peer_id"
    case Port => "port"
    case Left => "left"
    case Uploaded => "uploaded"
    case Downloaded => "downloaded"
    case EventField => "event"
    case Compact => "compact"
    case Numwant => "numwant"
    case Key => "key"
  }

  lemma NamesAreFields(field: Field)
    requires field != Unknown
    ensures FieldOf(NameOf(field)) == field
  {
  }

  lemma NamesArePlain(field: Field)
    requires field != Unknown
    ensures Bare(NameOf(field))
  {
  }

  function ReadId(value: string): Option<seq<u8>> {
    UrlBytes.Decode(value, UrlBytes.LENGTH)
  }

  function ReadU16(value: string): Option<u16> {
    ParseUnsigned(value, U16_MAX)
  }

  function ReadU64(value: string): Option<u64> {
    ParseUnsigned(value, U64_MAX)
  }

  function ReadEvent(value: string): Option<Event> {
    if value == "started" then Some(Started)
    else if value == "stopped" then Some(Stopped)
    else if value == "completed" then Some(Completed)
    else if value == "empty" then Some(Empty)
    else None
  }

  // Anything out of range means no preference; only what is not a number at all
  // is refused.
  function ReadNumwant(value: string): Option<Option<u64>> {
    match ParseI128(value)
    case None => None
    case Some(n) => Some(if 0 <= n <= U64_MAX then Some(n) else None)
  }

  function ReadKey(text: UrlText, value: string): Option<string> {
    if Utf8Length(value) > MAX_KEY_BYTES then None else text.decode(value)
  }

  // The parser's local variables.
  datatype Fields = Fields(
    infoHash: Option<seq<u8>>, peerId: Option<seq<u8>>, port: Option<u16>,
    left: Option<u64>, uploaded: Option<u64>, downloaded: Option<u64>,
    event: Event, numwant: Option<u64>, key: Option<string>)

  const NO_FIELDS := Fields(None, None, None, None, None, None, Empty, None, None)

  function Absorb(text: UrlText, f: Fields, pair: Pair): Result<Fields> {
    Assign(text, f, FieldOf(pair.key), pair.value)
  }

  // The parser's reaction to one key with its value.
  function Assign(text: UrlText, f: Fields, field: Field, value: string): Result<Fields> {
    match field
    case InfoHash =>
      var r := ReadId(value); if r.None? then Err else Ok(f.(infoHash := r))
    case PeerId =>
      var r := ReadId(value); if r.None? then Err else Ok(f.(peerId := r))
    case Port =>
      var r := ReadU16(value); if r.None? then Err else Ok(f.(port := r))
    case Left =>
      var r := ReadU64(value); if r.None? then Err else Ok(f.(left := r))
    case Uploaded =>
      var r := ReadU64(value); if r.None? then Err else Ok(f.(uploaded := r))
    case Downloaded =>
      var r := ReadU64(value); if r.None? then Err else Ok(f.(downloaded := r))
    case EventField =>
      var r := ReadEvent(value); if r.None? then Err else Ok(f.(event := r.value))
    case Compact =>
      if value != "1" then Err else Ok(f)
    case Numwant =>
      var r := ReadNumwant(value); if r.None? then Err else Ok(f.(numwant := r.value))
    case Key =>
      var r := ReadKey(text, value); if r.None? then Err else Ok(f.(key := r))
    case Unknown => Ok(f)
  }

  function Gather(text: UrlText, f: Fields, pairs: Pairs): Result<Fields>
    decreases pairs
  {
    match pairs
    case End => Ok(f)
    case Fault => Err
    case More(pair, rest) =>
      match Absorb(text, f, pair)
      case Err => Err
      case Ok(g) => Gather(text, g, rest)
  }

  // Everything but event, numwant and key is required.
  function Finish(fields: Result<Fields>): Result<Announce> {
    match fields
    case Err => Err
    case Ok(f) =>
      if f.infoHash.None? || f.peerId.None? || f.port.None? || f.uploaded.None?
         || f.downloaded.None? || f.left.None?
      then Err
      else Ok(Announce(f.infoHash.value, f.peerId.value, f.port.value, f.uploaded.value,
                       f.downloaded.value, f.left.value, f.event, f.numwant, f.key))
  }

  function AnnounceOf(text: UrlText, query: string): Result<Announce> {
    Finish(Gather(text, NO_FIELDS, PairsOfQuery(query)))
  }

  method AbsorbNext(text: UrlText, fields: Fields, query: string, sign: nat, position: nat)
    returns (absorbed: Result<Fields>, end: nat)
    requires sign < |query| && position <= |query|
    ensures position <= end <= |query|
    ensures Gather(text, fields, Lockstep(query, sign, position)) ==
      if absorbed.Err? || end == |query| then absorbed
      else Gather(text, absorbed.value, Lockstep(query, IndexFrom(query, '=', sign + 1), end + 1))
  {
    var pair;
    pair, end := NextPair(query, sign, position);
    absorbed := if pair.None? then Err else Absorb(text, fields, pair.value);
  }

  // `AnnounceRequest::parse_query_string`
  method ParseAnnounceQuery(text: UrlText, query: string) returns (r: Result<Announce>)
    ensures r == AnnounceOf(text, query)
  {
    var fields := NO_FIELDS;
    ghost var whole := Gather(text, NO_FIELDS, PairsOfQuery(query));
    var position: nat := 0;
    var sign: nat := IndexFrom(query, '=', 0);
    while sign < |query|
      invariant sign <= |query| && position <= |query|
      invariant Gather(text, fields, Lockstep(query, sign, position)) == whole
      decreases |query| - position
    {
      var absorbed, end := AbsorbNext(text, fields, query, sign, position);
      if end == |query| {
        return Finish(absorbed);
      }
      if absorbed.Err? {
        return Err;
      }
      fields := absorbed.value;
      position := end + 1;
      sign := IndexFrom(query, '=', sign + 1);
    }
    r := Finish(Ok(fields));
  }

  predicate IsHash(pair: Pair) {
    pair.key == "info_hash"
  }

  function AbsorbHash(hashes: seq<seq<u8>>, pair: Pair): Result<seq<seq<u8>>> {
    if !IsHash(pair) then Ok(hashes)
    else
      match ReadId(pair.value)
      case None => Err
      case Some(id) => Ok(hashes + [id])
  }

  function GatherHashes(hashes: seq<seq<u8>>, pairs: Pairs): Result<seq<seq<u8>>>
    decreases pairs
  {
    match pairs
    case End => Ok(hashes)
    case Fault => Err
    case More(pair, rest) =>
      match AbsorbHash(hashes, pair)
      case Err => Err
      case Ok(more) => GatherHashes(more, rest)
  }

  function FinishScrape(hashes: Result<seq<seq<u8>>>): Result<seq<seq<u8>>> {
    if hashes.Ok? && hashes.value == [] then Err else hashes
  }

  function ScrapeOf(query: string): Result<seq<seq<u8>>> {
    FinishScrape(GatherHashes([], PairsOfQuery(query)))
  }

  method AbsorbNextHash(hashes: seq<seq<u8>>, query: string, sign: nat, position: nat)
    returns (absorbed: Result<seq<seq<u8>>>, end: nat)
    requires sign < |query| && position <= |query|
    ensures position <= end <= |query|
    ensures GatherHashes(hashes, Lockstep(query, sign, position)) ==
      if absorbed.Err? || end == |query| then absorbed
      else GatherHashes(absorbed.value, Lockstep(query, IndexFrom(query, '=', sign + 1), end + 1))
  {
    var pair;
    pair, end := NextPair(query, sign, position);
    absorbed := if pair.None? then Err else AbsorbHash(hashes, pair.value);
  }

  // `ScrapeRequest::parse_query_string`
  method ParseScrapeQuery(query: string) returns (r: Result<seq<seq<u8>>>)
    ensures r == ScrapeOf(query)
  {
    var hashes: seq<seq<u8>> := [];
    var position: nat := 0;
    var sign: nat := IndexFrom(query, '=', 0);
    while sign < |query|
      invariant sign <= |query| && position <= |query|
      invariant ScrapeOf(query) == FinishScrape(GatherHashes(hashes, Lockstep(query, sign, position)))
      decreases |query| - position
    {
      var absorbed, end := AbsorbNextHash(hashes, query, sign, position);
      if end == |query| {
        return FinishScrape(absorbed);
      }
      if absorbed.Err? {
        return Err;
      }
      hashes := absorbed.value;
      position := end + 1;
      sign := IndexFrom(query, '=', sign + 1);
    }
    r := FinishScrape(Ok(hashes));
  }

  const ANNOUNCE := "/announce"
  const SCRAPE := "/scrape"

  function RequestOf(text: UrlText, path: string): Result<Request> {
    var mark := IndexFrom(path, '?', 0);
    if mark == |path| then Err
    else
      var location, query := path[..mark], path[mark + 1..];
      if location == ANNOUNCE then
        match AnnounceOf(text, query) { case Err => Err case Ok(a) => Ok(AnnounceRequest(a)) }
      else if location == SCRAPE then
        match ScrapeOf(query) { case Err => Err case Ok(hashes) => Ok(ScrapeRequest(hashes)) }
      else Err
  }

  // `Request::parse_http_get_path`
  method ParseHttpGetPath(text: UrlText, path: string) returns (r: Result<Request>)
    ensures r == RequestOf(text, path)
  {
    var mark := IndexFrom(path, '?', 0);
    if mark == |path| {
      return Err;
    }
    var location, query := path[..mark], path[mark + 1..];
    if location == ANNOUNCE {
      var announce := ParseAnnounceQuery(text, query);
      r := match announce { case Err => Err case Ok(a) => Ok(AnnounceRequest(a)) };
    } else if location == SCRAPE {
      var scrape := ParseScrapeQuery(query);
      r := match scrape { case Err => Err case Ok(hashes) => Ok(ScrapeRequest(hashes)) };
    } else {
      r := Err;
    }
  }

  // ------------------------------------------- what the announce parser accepts

  // A value the parser can read for its key.
  predicate Readable(text: UrlText, field: Field, value: string) {
    match field
    case InfoHash => ReadId(value).Some?
    case PeerId => ReadId(value).Some?
    case Port => ReadU16(value).Some?
    case Left => ReadU64(value).Some?
    case Uploaded => ReadU64(value).Some?
    case Downloaded => ReadU64(value).Some?
    case EventField => value in ["started", "stopped", "completed", "empty"]
    case Compact => value == "1"
    case Numwant => ParseI128(value).Some?
    case Key => ReadKey(text, value).Some?
    case Unknown => true
  }

  // Nothing broken off, and every pair readable.
  predicate AllReadable(text: UrlText, pairs: Pairs) {
    match pairs
    case End => true
    case Fault => false
    case More(pair, rest) => Readable(text, FieldOf(pair.key), pair.value) && AllReadable(text, rest)
  }

  // The value of every field's last occurrence.
  function LastValues(pairs: Pairs): map<Field, string> {
    if pairs.More? then map[FieldOf(pairs.pair.key) := pairs.pair.value] + LastValues(pairs.rest) else map[]
  }

  function IdIn(last: map<Field, string>, field: Field, default: Option<seq<u8>>): Option<seq<u8>> {
    if field in last then ReadId(last[field]) else default
  }

  function U64In(last: map<Field, string>, field: Field, default: Option<u64>): Option<u64> {
    if field in last then ReadU64(last[field]) else default
  }

  // What these values say; the default where there is none.
  function Overlay(text: UrlText, f: Fields, last: map<Field, string>): Fields {
    Fields(
      IdIn(last, InfoHash, f.infoHash),
      IdIn(last, PeerId, f.peerId),
      if Port in last then ReadU16(last[Port]) else f.port,
      U64In(last, Left, f.left),
      U64In(last, Uploaded, f.uploaded),
      U64In(last, Downloaded, f.downloaded),
      if EventField in last && ReadEvent(last[EventField]).Some? then ReadEvent(last[EventField]).value else f.event,
      if Numwant in last && ReadNumwant(last[Numwant]).Some? then ReadNumwant(last[Numwant]).value else f.numwant,
      if Key in last then ReadKey(text, last[Key]) else f.key)
  }

  ghost predicate AllValuesReadable(text: UrlText, last: map<Field, string>) {
    forall field <- last :: Readable(text, field, last[field])
  }

  lemma AssignAccepts(text: UrlText, f: Fields, field: Field, value: string)
    ensures Assign(text, f, field, value).Ok? <==> Readable(text, field, value)
  {
  }

  // A later value of the same field makes an earlier one irrelevant.
  ghost predicate Overlaid(text: UrlText, f: Fields, field: Field, value: string, last: map<Field, string>) {
    var r := Assign(text, f, field, value);
    r.Ok? ==> Overlay(text, r.value, last) == Overlay(text, f, map[field := value] + last)
  }

  lemma AssignOverlay(text: UrlText, f: Fields, field: Field, value: string, last: map<Field, string>)
    requires AllValuesReadable(text, last)
    ensures Overlaid(text, f, field, value, last)
  {
  }

  lemma {:induction false} LastAreReadable(text: UrlText, pairs: Pairs)
    ensures AllReadable(text, pairs) ==> AllValuesReadable(text, LastValues(pairs))
  {
    if pairs.More? {
      LastAreReadable(text, pairs.rest);
    }
  }

  // Every pair must be readable and nothing broken off; then the last value of
  // each field counts, wherever it stands.
  lemma {:induction false} GatherMeans(text: UrlText, f: Fields, pairs: Pairs)
    ensures Gather(text, f, pairs) ==
      if AllReadable(text, pairs) then Ok(Overlay(text, f, LastValues(pairs))) else Err
    decreases pairs
  {
    if pairs.More? {
      var field, value, rest := FieldOf(pairs.pair.key), pairs.pair.value, pairs.rest;
      var r := Assign(text, f, field, value);
      AssignAccepts(text, f, field, value);
      if r.Ok? {
        GatherMeans(text, r.value, rest);
        if AllReadable(text, rest) {
          LastAreReadable(text, rest);
          AssignOverlay(text, f, field, value, LastValues(rest));
        }
      }
    }
  }

  predicate HasRequired(last: map<Field, string>) {
    InfoHash in last && PeerId in last && Port in last && Uploaded in last && Downloaded in last && Left in last
  }

  // The word for each event.
  function WordOf(event: Event): string {
    match event
    case Started => "started"
    case Stopped => "stopped"
    case Completed => "completed"
    case Empty => "empty"
  }

  // The number a preference is spelled as: one that fits, or else any other.
  ghost predicate Prefers(value: string, numwant: Option<u64>) {
    match ParseI128(value)
    case None => false
    case Some(n) => if 0 <= n <= U64_MAX then numwant == Some(n) else numwant == None
  }

  lemma WordsDiffer(event: Event, other: Event)
    ensures WordOf(event) == WordOf(other) ==> event == other
  {
    EventIsWord(WordOf(event), event);
    EventIsWord(WordOf(event), other);
  }

  lemma EventIsWord(value: string, event: Event)
    ensures ReadEvent(value) == Some(event) <==> value == WordOf(event)
  {
  }

  lemma NumwantIsPreferred(value: string, numwant: Option<u64>)
    ensures ReadNumwant(value) == Some(numwant) <==> Prefers(value, numwant)
  {
  }

  // An announce that says what the last values say.
  ghost predicate Says(text: UrlText, last: map<Field, string>, a: Announce)
    requires HasRequired(last)
  {
    && ReadId(last[InfoHash]) == Some(a.infoHash)
    && ReadId(last[PeerId]) == Some(a.peerId)
    && ReadU16(last[Port]) == Some(a.port)
    && ReadU64(last[Uploaded]) == Some(a.uploaded)
    && ReadU64(last[Downloaded]) == Some(a.downloaded)
    && ReadU64(last[Left]) == Some(a.left)
    && (if EventField in last then last[EventField] == WordOf(a.event) else a.event == Empty)
    && (if Numwant in last then Prefers(last[Numwant], a.numwant) else a.numwant == None)
    && (if Key in last then ReadKey(text, last[Key]) == a.key && a.key.Some? else a.key == None)
  }

  lemma RequiredAreRead(text: UrlText, last: map<Field, string>)
    requires AllValuesReadable(text, last)
    ensures var f := Overlay(text, NO_FIELDS, last);
      && f.infoHash == (if InfoHash in last then ReadId(last[InfoHash]) else None)
      && f.peerId == (if PeerId in last then ReadId(last[PeerId]) else None)
      && f.port == (if Port in last then ReadU16(last[Port]) else None)
      && f.uploaded == (if Uploaded in last then ReadU64(last[Uploaded]) else None)
      && f.downloaded == (if Downloaded in last then ReadU64(last[Downloaded]) else None)
      && f.left == (if Left in last then ReadU64(last[Left]) else None)
      && (f.infoHash.Some? <==> InfoHash in last) && (f.peerId.Some? <==> PeerId in last)
      && (f.port.Some? <==> Port in last) && (f.uploaded.Some? <==> Uploaded in last)
      && (f.downloaded.Some? <==> Downloaded in last) && (f.left.Some? <==> Left in last)
  {
    assert forall field <- last :: Readable(text, field, last[field]);
  }

  lemma OptionalAreRead(text: UrlText, last: map<Field, string>)
    requires AllValuesReadable(text, last)
    ensures var f := Overlay(text, NO_FIELDS, last);
      && (if EventField in last then ReadEvent(last[EventField]) == Some(f.event) else f.event == Empty)
      && (if Numwant in last then ReadNumwant(last[Numwant]) == Some(f.numwant) else f.numwant == None)
      && (if Key in last then ReadKey(text, last[Key]) == f.key && f.key.Some? else f.key == None)
  {
  }

  lemma FinishMeans(text: UrlText, last: map<Field, string>)
    requires AllValuesReadable(text, last)
    ensures var r := Finish(Ok(Overlay(text, NO_FIELDS, last)));
      if HasRequired(last) then r.Ok? && Says(text, last, r.value) else r == Err
  {
    RequiredAreRead(text, last);
    OptionalAreRead(text, last);
    var f := Overlay(text, NO_FIELDS, last);
    if EventField in last {
      EventIsWord(last[EventField], f.event);
    }
    if Numwant in last {
      NumwantIsPreferred(last[Numwant], f.numwant);
    }
  }

  // The whole announce parser: which queries it accepts and what it reads.
  lemma AnnounceMeans(text: UrlText, query: string)
    ensures var pairs := PairsOfPieces(Split(query, '&'));
      var r, last := AnnounceOf(text, query), LastValues(pairs);
      if AllReadable(text, pairs) && HasRequired(last) then r.Ok? && Says(text, last, r.value) else r == Err
  {
    LockstepIsPieces(query);
    var pairs := PairsOfQuery(query);
    GatherMeans(text, NO_FIELDS, pairs);
    if AllReadable(text, pairs) {
      LastAreReadable(text, pairs);
      FinishMeans(text, LastValues(pairs));
    }
  }

  function HashesIn(pairs: Pairs): seq<seq<u8>> {
    if !pairs.More? then []
    else if IsHash(pairs.pair) && ReadId(pairs.pair.value).Some?
      then [ReadId(pairs.pair.value).value] + HashesIn(pairs.rest)
    else HashesIn(pairs.rest)
  }

  predicate HashesReadable(pairs: Pairs) {
    match pairs
    case End => true
    case Fault => false
    case More(pair, rest) =>
      (IsHash(pair) ==> ReadId(pair.value).Some?) && HashesReadable(rest)
  }

  lemma OneMore(hashes: seq<seq<u8>>, id: seq<u8>, rest: seq<seq<u8>>)
    ensures (hashes + [id]) + rest == hashes + ([id] + rest)
  {
  }

  lemma {:induction false} GatherHashesMeans(hashes: seq<seq<u8>>, pairs: Pairs)
    ensures GatherHashes(hashes, pairs) ==
      if HashesReadable(pairs) then Ok(hashes + HashesIn(pairs)) else Err
    decreases pairs
  {
    match pairs
    case End => assert hashes + [] == hashes;
    case Fault =>
    case More(pair, rest) =>
      if !IsHash(pair) {
        GatherHashesMeans(hashes, rest);
      } else {
        var id := ReadId(pair.value);
        if id.Some? {
          GatherHashesMeans(hashes + [id.value], rest);
          OneMore(hashes, id.value, HashesIn(rest));
        }
      }
  }

  // The whole scrape parser: all the readable hashes in the order they stand in.
  lemma ScrapeMeans(query: string)
    ensures var pairs := PairsOfPieces(Split(query, '&'));
      ScrapeOf(query) ==
        if HashesReadable(pairs) && HashesIn(pairs) != [] then Ok(HashesIn(pairs)) else Err
  {
    LockstepIsPieces(query);
    GatherHashesMeans([], PairsOfQuery(query));
    assert [] + HashesIn(PairsOfQuery(query)) == HashesIn(PairsOfQuery(query));
  }
}
