// Requests on one connection: a fixed buffer, reads of any size, and leftovers
// moved to the front. What comes out depends on the bytes alone, not on how they
// were cut into reads.
module Framing {
  import opened Base

  const REQUEST_BUFFER_SIZE := 2048

  // Why a request is refused outright: it is malformed, and is answered, or the
  // reverse proxy left out the address of the peer, and the connection just ends.
  datatype Refusal = Malformed | PeerIpMissing

  // What the request parser says about the start of a buffer.
  datatype Parsed<Request> =
    | Complete(request: Request, consumed: nat)
    | MoreDataNeeded
    | Refused(why: Refusal)

  type Parser<Request> = seq<u8> -> Parsed<Request>

  // A prefix-stable parser: its verdict on some bytes is not changed by bytes
  // that follow, and the bytes a request consumes are enough to recognise it.
  ghost predicate Stable<Request(!new)>(parse: Parser<Request>) {
    && parse([]) == MoreDataNeeded
    && (forall b: seq<u8>, more: seq<u8> :: parse(b) != MoreDataNeeded ==> parse(b + more) == parse(b))
    && (forall b: seq<u8> :: parse(b).Complete? ==>
         0 < parse(b).consumed <= |b| && parse(b[..parse(b).consumed]) == parse(b))
  }

  // ------------------------------------------------------------ the requests of a stream

  datatype Outcome<Request> =
    | Next(request: Request)
    | Rejected(why: Refusal)
    | BufferFull
    | PeerClosed

  // The bytes a request may take up before the buffer is full.
  function Window(stream: seq<u8>): seq<u8> {
    stream[..Min(|stream|, REQUEST_BUFFER_SIZE)]
  }

  // What the next request of a stream is, said without any reads: the parser's
  // verdict on as much of the stream as fits the buffer.
  function NextOf<Request>(parse: Parser<Request>, stream: seq<u8>): Outcome<Request> {
    match parse(Window(stream))
    case Complete(request, _) => Next(request)
    case Refused(why) => Rejected(why)
    case MoreDataNeeded => if |stream| >= REQUEST_BUFFER_SIZE then BufferFull else PeerClosed
  }

  ghost function RestOf<Request(!new)>(parse: Parser<Request>, stream: seq<u8>): (rest: seq<u8>)
    requires Stable(parse)
    ensures parse(Window(stream)).Complete? ==> |rest| < |stream|
  {
    match parse(Window(stream))
    case Complete(_, consumed) => stream[consumed..]
    case _ => stream
  }

  datatype Session<Request> = Session(requests: seq<Request>, end: Outcome<Request>)

  // All requests of a stream, and how it ends.
  ghost function SessionOf<Request(!new)>(parse: Parser<Request>, stream: seq<u8>): Session<Request>
    requires Stable(parse)
    decreases |stream|
  {
    match NextOf(parse, stream)
    case Next(request) =>
      var rest := SessionOf(parse, RestOf(parse, stream));
      Session([request] + rest.requests, rest.end)
    case end => Session([], end)
  }

  // ------------------------------------------------------------ the connection

  class Connection<Request(!new)> {
    const parse: Parser<Request>
    const buffer: array<u8>
    var position: nat
    // What the peer has sent or will send and nobody has read yet.
    var unread: seq<u8>

    constructor (parse: Parser<Request>, stream: seq<u8>)
      ensures Ok() && fresh(buffer) && Pending() == stream && this.parse == parse
    {
      this.parse := parse;
      buffer := new u8[REQUEST_BUFFER_SIZE];
      position := 0;
      unread := stream;
    }

    predicate Ok()
      reads this
    {
      buffer.Length == REQUEST_BUFFER_SIZE && position <= REQUEST_BUFFER_SIZE
    }

    // Everything that is still to be turned into requests.
    function Pending(): seq<u8>
      requires Ok()
      reads this, buffer
    {
      buffer[..position] + unread
    }

    // One read of the socket: any number of bytes there is room for, and none
    // only when the peer has closed.
    method Read() returns (bytesRead: nat)
      requires Ok() && position < REQUEST_BUFFER_SIZE
      modifies this`unread, this`position, buffer
      ensures Ok() && Pending() == old(Pending())
      ensures bytesRead == 0 <==> old(unread) == []
      ensures position == old(position) + bytesRead && |unread| == |old(unread)| - bytesRead
    {
      if unread == [] {
        return 0;
      }
      assert 1 <= REQUEST_BUFFER_SIZE - position && 1 <= |unread|;
      var n: nat :| 1 <= n && n <= REQUEST_BUFFER_SIZE - position && n <= |unread|;
      bytesRead := n;
      assert unread == unread[..n] + unread[n..];
      Fill(unread[..n]);
      unread := unread[n..];
    }

    method Fill(bytes: seq<u8>)
      requires Ok() && position + |bytes| <= REQUEST_BUFFER_SIZE
      modifies this`position, buffer
      ensures position == old(position) + |bytes|
      ensures Ok() && buffer[..position] == old(buffer[..position]) + bytes
    {
      for i := 0 to |bytes|
        invariant position == old(position)
        invariant buffer[..position] == old(buffer[..position])
        invariant buffer[position..position + i] == bytes[..i]
      {
        buffer[position + i] := bytes[i];
      }
      assert buffer[..position + |bytes|] == buffer[..position] + buffer[position..position + |bytes|];
      position := position + |bytes|;
    }

    // `finish_request`: what follows the request moves to the front, in place.
    method FinishRequest(consumed: nat)
      requires Ok() && consumed <= position
      modifies this`position, buffer
      ensures Ok() && Pending() == old(Pending())[consumed..]
    {
      var leftover := position - consumed;
      ghost var was := buffer[..];
      for i := 0 to leftover
        invariant forall k :: 0 <= k < i ==> buffer[k] == was[consumed + k]
        invariant forall k :: i <= k < buffer.Length ==> buffer[k] == was[k]
      {
        buffer[i] := buffer[consumed + i];
      }
      position := leftover;
      assert buffer[..position] == was[consumed..consumed + leftover];
    }

    // `read_request`. Its outcome, and the bytes it leaves, are those of the
    // stream as a whole, whatever the sizes of the reads were.
    method ReadRequest() returns (outcome: Outcome<Request>)
      requires Ok() && Stable(parse)
      modifies this`unread, this`position, buffer
      ensures Ok()
      ensures outcome == NextOf(parse, old(Pending()))
      ensures Pending() == RestOf(parse, old(Pending()))
    {
      while true
        invariant Ok() && Pending() == old(Pending())
        decreases |unread|
      {
        if position > 0 {
          ghost var start := buffer[..position];
          PrefixDecides(parse, start, unread);
          match parse(buffer[..position])
          case Complete(request, consumed) =>
            FinishRequest(consumed);
            return Next(request);
          case Refused(why) => return Rejected(why);
          case MoreDataNeeded =>
        } else {
          assert buffer[..position] == [];
        }
        WholeWindow(buffer[..position], unread);
        if position == REQUEST_BUFFER_SIZE {
          return BufferFull;
        }
        var bytesRead := Read();
        if bytesRead == 0 {
          return PeerClosed;
        }
      }
    }

    // The connection until its end.
    method Serve() returns (requests: seq<Request>, end: Outcome<Request>)
      requires Ok() && Stable(parse)
      modifies this`unread, this`position, buffer
      ensures Ok() && Session(requests, end) == SessionOf(parse, old(Pending()))
    {
      requests := [];
      ghost var whole := SessionOf(parse, Pending());
      while true
        invariant Ok()
        invariant Continues(whole, requests, SessionOf(parse, Pending()))
        decreases |Pending()|
      {
        ghost var stream := Pending();
        var outcome := ReadRequest();
        SessionUnfolds(parse, stream, whole, requests);
        match outcome
        case Next(request) => requests := requests + [request];
        case _ => return requests, outcome;
      }
    }
  }

  // What is left after some requests have been served.
  ghost predicate Continues<Request>(whole: Session<Request>, served: seq<Request>, rest: Session<Request>) {
    whole == Session(served + rest.requests, rest.end)
  }

  lemma SessionUnfolds<Request(!new)>(
      parse: Parser<Request>, stream: seq<u8>, whole: Session<Request>, served: seq<Request>)
    requires Stable(parse) && Continues(whole, served, SessionOf(parse, stream))
    ensures match NextOf(parse, stream)
      case Next(request) => Continues(whole, served + [request], SessionOf(parse, RestOf(parse, stream)))
      case end => whole == Session(served, end)
  {
  }

  // A verdict on the bytes read so far is the verdict on the whole window.
  lemma PrefixDecides<Request(!new)>(parse: Parser<Request>, start: seq<u8>, more: seq<u8>)
    requires Stable(parse) && |start| <= REQUEST_BUFFER_SIZE
    ensures parse(start) != MoreDataNeeded ==> parse(Window(start + more)) == parse(start)
    ensures parse(start).Complete? ==> 0 < parse(start).consumed <= |start|
  {
    var window := Window(start + more);
    assert window == start + window[|start|..];
  }

  // When the buffer is full or the peer has closed, the bytes read are the window.
  lemma WholeWindow(start: seq<u8>, unread: seq<u8>)
    requires |start| <= REQUEST_BUFFER_SIZE
    ensures |start| == REQUEST_BUFFER_SIZE || unread == [] ==> Window(start + unread) == start
  {
  }

  // ------------------------------------------------------------ without a buffer

  // The requests of a stream read off the concatenated bytes, with no buffer and
  // no limit at all.
  ghost function FramesOf<Request(!new)>(parse: Parser<Request>, stream: seq<u8>): (seq<Request>, Parsed<Request>)
    requires Stable(parse)
    decreases |stream|
  {
    match parse(stream)
    case Complete(request, consumed) =>
      assert parse(stream).consumed <= |stream|;
      var (requests, end) := FramesOf(parse, stream[consumed..]);
      ([request] + requests, end)
    case end => ([], end)
  }

  // The window says what the whole stream says, unless it is a full buffer of one
  // request that goes on beyond it.
  lemma WindowVerdict<Request(!new)>(parse: Parser<Request>, stream: seq<u8>)
    requires Stable(parse)
    ensures parse(Window(stream)) != MoreDataNeeded ==> parse(stream) == parse(Window(stream))
    ensures parse(stream).Complete? && parse(stream).consumed <= REQUEST_BUFFER_SIZE ==>
      parse(Window(stream)) == parse(stream)
    ensures |stream| < REQUEST_BUFFER_SIZE ==> parse(Window(stream)) == parse(stream)
  {
    var window := Window(stream);
    assert stream == window + stream[|window|..];
    if parse(stream).Complete? && parse(stream).consumed <= REQUEST_BUFFER_SIZE {
      var consumed := parse(stream).consumed;
      assert window == stream[..consumed] + window[consumed..];
    }
    if |stream| < REQUEST_BUFFER_SIZE {
      assert window == stream;
    }
  }

  // The session is the parse of the concatenation. If it does not end with a full
  // buffer the two are the same to the end; a full buffer only cuts the list of
  // requests short, and it means that the next 2048 bytes are all part of one
  // request that is not finished yet.
  lemma {:induction false} SessionIsParse<Request(!new)>(parse: Parser<Request>, stream: seq<u8>)
    requires Stable(parse)
    ensures var session := SessionOf(parse, stream);
      var (requests, end) := FramesOf(parse, stream);
      && session.requests <= requests
      && (session.end != BufferFull ==>
           && session.requests == requests
           && (forall why :: session.end == Rejected(why) <==> end == Refused(why))
           && (session.end == PeerClosed <==> end == MoreDataNeeded))
    decreases |stream|
  {
    WindowVerdict(parse, stream);
    if parse(Window(stream)).Complete? {
      SessionIsParse(parse, RestOf(parse, stream));
    }
  }

  // The bytes that whole requests at the front of a stream take up.
  ghost function WholeBytes<Request(!new)>(parse: Parser<Request>, stream: seq<u8>): nat
    requires Stable(parse)
    decreases |stream|
  {
    match parse(stream)
    case Complete(_, consumed) =>
      assert parse(stream).consumed <= |stream|;
      consumed + WholeBytes(parse, stream[consumed..])
    case _ => 0
  }

  // A start of the stream that is exactly these requests, with nothing left over.
  ghost predicate IsWhole<Request(!new)>(parse: Parser<Request>, start: seq<u8>, requests: seq<Request>)
    requires Stable(parse)
  {
    FramesOf(parse, start) == (requests, MoreDataNeeded) && WholeBytes(parse, start) == |start|
  }

  lemma WholePrepend<Request(!new)>(
      parse: Parser<Request>, stream: seq<u8>, later: nat, requests: seq<Request>)
    requires Stable(parse) && parse(Window(stream)).Complete?
    requires later <= |RestOf(parse, stream)|
    requires IsWhole(parse, RestOf(parse, stream)[..later], requests)
    ensures var verdict := parse(Window(stream));
      && verdict.consumed + later <= |stream|
      && IsWhole(parse, stream[..verdict.consumed + later], [verdict.request] + requests)
  {
    var window := Window(stream);
    var consumed := parse(window).consumed;
    var start := stream[..consumed + later];
    assert window[..consumed] + start[consumed..] == start;
    assert parse(start) == parse(window);
    assert start[consumed..] == RestOf(parse, stream)[..later];
  }

  // A full buffer at this place: 2048 bytes that the parser still takes for the
  // start of one request, right after exactly the requests of the session.
  ghost predicate FullAt<Request(!new)>(parse: Parser<Request>, stream: seq<u8>, at: nat)
    requires Stable(parse)
  {
    && at + REQUEST_BUFFER_SIZE <= |stream|
    && parse(stream[at..][..REQUEST_BUFFER_SIZE]) == MoreDataNeeded
    && IsWhole(parse, stream[..at], SessionOf(parse, stream).requests)
    && SessionOf(parse, stream[at..]).requests == []
  }

  // A full buffer is reported only when 2048 bytes are there that the parser still
  // takes for the start of one request, right after the requests of the session:
  // the bytes before them are exactly those, with nothing left over.
  lemma {:induction false} BufferFullMeans<Request(!new)>(parse: Parser<Request>, stream: seq<u8>)
      returns (at: nat)
    requires Stable(parse) && SessionOf(parse, stream).end == BufferFull
    ensures FullAt(parse, stream, at)
    decreases |stream|
  {
    at := 0;
    if parse(Window(stream)).Complete? {
      SessionGoesOn(parse, stream);
      var later := BufferFullMeans(parse, RestOf(parse, stream));
      at := FullPrepend(parse, stream, later);
    } else {
      FullHere(parse, stream);
    }
  }

  lemma SessionGoesOn<Request(!new)>(parse: Parser<Request>, stream: seq<u8>)
    requires Stable(parse) && parse(Window(stream)).Complete?
    ensures SessionOf(parse, stream).end == SessionOf(parse, RestOf(parse, stream)).end
  {
  }

  lemma FullHere<Request(!new)>(parse: Parser<Request>, stream: seq<u8>)
    requires Stable(parse) && !parse(Window(stream)).Complete? && SessionOf(parse, stream).end == BufferFull
    ensures FullAt(parse, stream, 0)
  {
    assert stream[0..] == stream && stream[..0] == [];
  }

  lemma FullPrepend<Request(!new)>(parse: Parser<Request>, stream: seq<u8>, later: nat) returns (at: nat)
    requires Stable(parse) && parse(Window(stream)).Complete?
    requires FullAt(parse, RestOf(parse, stream), later)
    ensures FullAt(parse, stream, at)
  {
    var rest := RestOf(parse, stream);
    at := parse(Window(stream)).consumed + later;
    WholePrepend(parse, stream, later, SessionOf(parse, rest).requests);
    assert stream[at..] == rest[later..];
  }
}
