// How a query string is taken apart: one walk over the equal signs and, in
// lockstep with it, one over the ampersands.
module Queries {
  import opened Base
  import opened Text

  datatype Pair = Pair(key: string, value: string)

  // What a walk finds, in order: more pairs, until it ends or is lost.
  datatype Pairs = End | Fault | More(pair: Pair, rest: Pairs)

  function Cut(query: string, position: nat, sign: nat, end: nat): Pair
    requires position <= sign < end <= |query|
  {
    Pair(query[position..sign], query[sign + 1..end])
  }

  // The pairs the walk sees. `sign` is the equal sign it is at, `position` where
  // the current segment and the search for its end begin.
  function Lockstep(query: string, sign: nat, position: nat): Pairs
    requires sign <= |query| && position <= |query|
    decreases |query| - position
  {
    if sign == |query| then End
    else
      var end := IndexFrom(query, '&', position);
      if position > sign || sign + 1 > end then Fault
      else
        var pair := Cut(query, position, sign, end);
        if end == |query| then More(pair, End)
        else More(pair, Lockstep(query, IndexFrom(query, '=', sign + 1), end + 1))
  }

  // The body of a loop over the equal signs: the key and value at this one, if
  // the string has any there, and where the segment ends.
  method NextPair(query: string, sign: nat, position: nat) returns (pair: Option<Pair>, end: nat)
    requires sign < |query| && position <= |query|
    ensures position <= end <= |query|
    ensures Lockstep(query, sign, position) ==
      if pair.None? then Fault
      else More(pair.value, if end == |query| then End else Lockstep(query, IndexFrom(query, '=', sign + 1), end + 1))
  {
    end := IndexFrom(query, '&', position);
    if position > sign || sign + 1 > end {
      pair := None;
    } else {
      pair := Some(Cut(query, position, sign, end));
    }
  }

  function PairsOfQuery(query: string): Pairs {
    Lockstep(query, IndexFrom(query, '=', 0), 0)
  }

  // ------------------------------------------------ what the walk amounts to

  ghost predicate AnySign(pieces: seq<string>) {
    pieces != [] && ('=' in pieces[0] || AnySign(pieces[1..]))
  }

  // Exactly one equal sign: splitting on it gives two parts.
  ghost predicate OneSign(piece: string) {
    |Split(piece, '=')| == 2
  }

  // A piece cut at its first equal sign.
  ghost function PairOf(piece: string): Pair
    requires '=' in piece
  {
    IndexFromFinds(piece, '=', 0);
    var j := IndexFrom(piece, '=', 0);
    Pair(piece[..j], piece[j + 1..])
  }

  // The meaning of a query in terms of its segments: trailing segments without
  // any equal sign are dropped; before that each segment must have exactly one,
  // except that the very last segment may have more.
  ghost function PairsOfPieces(pieces: seq<string>): Pairs {
    if !AnySign(pieces) then End
    else if '=' !in pieces[0] then Fault
    else if |pieces| == 1 then More(PairOf(pieces[0]), End)
    else if !OneSign(pieces[0]) then More(PairOf(pieces[0]), Fault)
    else More(PairOf(pieces[0]), PairsOfPieces(pieces[1..]))
  }

  lemma TwoParts(piece: string, c: char)
    requires IndexFrom(piece, c, 0) < |piece|
    ensures var j := IndexFrom(piece, c, 0);
      && (|Split(piece, c)| == 2 <==> IndexFrom(piece, c, j + 1) == |piece|)
      && (|Split(piece, c)| == 2 ==> Split(piece, c) == [piece[0..j], piece[j + 1..|piece|]])
  {
    assert Split(piece, c) == [piece[0..IndexFrom(piece, c, 0)]] + SplitFrom(piece, c, IndexFrom(piece, c, 0) + 1);
    OnePart(piece, c, IndexFrom(piece, c, 0) + 1);
  }

  lemma OnePart(piece: string, c: char, from: nat)
    requires from <= |piece|
    ensures |SplitFrom(piece, c, from)| == 1 <==> IndexFrom(piece, c, from) == |piece|
    ensures |SplitFrom(piece, c, from)| == 1 ==> SplitFrom(piece, c, from) == [piece[from..|piece|]]
  {
  }

  lemma OneSignIs(piece: string)
    requires '=' in piece
    ensures OneSign(piece) <==> '=' !in PairOf(piece).value
    ensures OneSign(piece) ==> Split(piece, '=') == [PairOf(piece).key, PairOf(piece).value]
  {
    IndexFromFinds(piece, '=', 0);
    SignFrom(piece, IndexFrom(piece, '=', 0) + 1, |piece|);
    TwoParts(piece, '=');
    assert piece[IndexFrom(piece, '=', 0) + 1..|piece|] == PairOf(piece).value;
    assert piece[0..IndexFrom(piece, '=', 0)] == PairOf(piece).key;
  }

  lemma SkipNoSign(query: string, from: nat, to: nat)
    requires from <= to <= |query|
    requires forall k :: from <= k < to ==> query[k] != '='
    ensures IndexFrom(query, '=', from) == IndexFrom(query, '=', to)
  {
    IndexFromFinds(query, '=', to);
    IndexFromIs(query, '=', from, IndexFrom(query, '=', to));
  }

  lemma PiecesStep(first: string, rest: seq<string>)
    requires '=' in first && rest != []
    ensures PairsOfPieces([first] + rest) ==
      More(PairOf(first), if OneSign(first) then PairsOfPieces(rest) else Fault)
  {
    assert ([first] + rest)[0] == first && ([first] + rest)[1..] == rest;
  }

  lemma OnePiece(piece: string)
    requires '=' in piece
    ensures PairsOfPieces([piece]) == More(PairOf(piece), End)
  {
  }

  // Segment by segment: the form in which the walk and the split pieces meet.
  ghost function Walk(query: string, position: nat): Pairs
    requires position <= |query|
    decreases |query| - position
  {
    var end, sign := IndexFrom(query, '&', position), IndexFrom(query, '=', position);
    if sign == |query| then End
    else if sign >= end then Fault
    else if end == |query| then More(Cut(query, position, sign, end), End)
    else
      More(Cut(query, position, sign, end),
           if IndexFrom(query, '=', sign + 1) < end then Fault else Walk(query, end + 1))
  }

  // After a segment with a surplus equal sign the lockstep is lost for good.
  lemma {:induction false} LockstepIsWalk(query: string, position: nat)
    requires position <= |query|
    ensures Lockstep(query, IndexFrom(query, '=', position), position) == Walk(query, position)
    decreases |query| - position
  {
    IndexFromFinds(query, '&', position);
    IndexFromFinds(query, '=', position);
    if IndexFrom(query, '=', position) < IndexFrom(query, '&', position) < |query| {
      if IndexFrom(query, '=', IndexFrom(query, '=', position) + 1) >= IndexFrom(query, '&', position) {
        IndexFromFinds(query, '=', IndexFrom(query, '=', position) + 1);
        SkipNoSign(query, IndexFrom(query, '=', position) + 1, IndexFrom(query, '&', position) + 1);
        LockstepIsWalk(query, IndexFrom(query, '&', position) + 1);
      }
    }
  }

  lemma SignFrom(query: string, position: nat, end: nat)
    requires position <= end <= |query|
    ensures '=' in query[position..end] <==> IndexFrom(query, '=', position) < end
    ensures '=' in query[position..end] ==>
      IndexFrom(query[position..end], '=', 0) == IndexFrom(query, '=', position) - position
  {
    IndexFromFinds(query, '=', position);
    var piece, sign := query[position..end], IndexFrom(query, '=', position);
    if sign < end {
      assert piece[sign - position] == '=';
      IndexFromIs(piece, '=', 0, sign - position);
    }
  }

  lemma PieceFacts(query: string, position: nat, sign: nat, end: nat)
    requires position <= sign < end <= |query| && IndexFrom(query, '=', position) == sign
    ensures var piece := query[position..end];
      && '=' in piece
      && PairOf(piece) == Cut(query, position, sign, end)
      && (OneSign(piece) <==> IndexFrom(query, '=', sign + 1) >= end)
  {
    var piece := query[position..end];
    SignFrom(query, position, end);
    SignFrom(query, sign + 1, end);
    assert piece[..sign - position] == query[position..sign];
    assert piece[sign - position + 1..] == query[sign + 1..end];
    OneSignIs(piece);
  }

  lemma PiecesFrom(query: string, position: nat, sign: nat, end: nat, rest: seq<string>)
    requires position <= sign < end <= |query| && IndexFrom(query, '=', position) == sign
    requires rest != []
    ensures PairsOfPieces([query[position..end]] + rest) ==
      More(Cut(query, position, sign, end),
           if IndexFrom(query, '=', sign + 1) < end then Fault else PairsOfPieces(rest))
  {
    PieceFacts(query, position, sign, end);
    PiecesStep(query[position..end], rest);
  }

  lemma {:induction false} SegmentsKeepSigns(query: string, position: nat)
    requires position <= |query|
    ensures AnySign(SplitFrom(query, '&', position)) <==> IndexFrom(query, '=', position) < |query|
    decreases |query| - position
  {
    SignFrom(query, position, IndexFrom(query, '&', position));
    if IndexFrom(query, '&', position) < |query| {
      SegmentsKeepSigns(query, IndexFrom(query, '&', position) + 1);
      if IndexFrom(query, '=', position) >= IndexFrom(query, '&', position) {
        IndexFromFinds(query, '=', position);
        IndexFromFinds(query, '&', position);
        SkipNoSign(query, position, IndexFrom(query, '&', position) + 1);
      }
      AnySignStep(query[position..IndexFrom(query, '&', position)],
        SplitFrom(query, '&', IndexFrom(query, '&', position) + 1));
    }
  }

  lemma AnySignStep(first: string, rest: seq<string>)
    ensures AnySign([first] + rest) <==> '=' in first || AnySign(rest)
  {
    assert ([first] + rest)[1..] == rest;
  }

  lemma SignLate(query: string, position: nat, sign: nat, end: nat)
    requires position <= end <= sign <= |query|
    requires IndexFrom(query, '=', position) == sign && IndexFrom(query, '&', position) == end
    ensures PairsOfPieces(SplitFrom(query, '&', position)) == if sign == |query| then End else Fault
  {
    SegmentsKeepSigns(query, position);
    SignFrom(query, position, end);
  }

  lemma FirstSegment(query: string, position: nat)
    requires position <= |query|
    requires IndexFrom(query, '=', position) < IndexFrom(query, '&', position)
    ensures var end, sign := IndexFrom(query, '&', position), IndexFrom(query, '=', position);
      PairsOfPieces(SplitFrom(query, '&', position)) ==
        if end == |query| then More(Cut(query, position, sign, end), End)
        else
          More(Cut(query, position, sign, end),
               if IndexFrom(query, '=', sign + 1) < end then Fault
               else PairsOfPieces(SplitFrom(query, '&', end + 1)))
  {
    if IndexFrom(query, '&', position) == |query| {
      PieceFacts(query, position, IndexFrom(query, '=', position), |query|);
      OnePiece(query[position..|query|]);
    } else {
      PiecesFrom(query, position, IndexFrom(query, '=', position), IndexFrom(query, '&', position),
        SplitFrom(query, '&', IndexFrom(query, '&', position) + 1));
    }
  }

  lemma {:induction false} WalkIsPieces(query: string, position: nat)
    requires position <= |query|
    ensures Walk(query, position) == PairsOfPieces(SplitFrom(query, '&', position))
    decreases |query| - position
  {
    if IndexFrom(query, '=', position) >= IndexFrom(query, '&', position) {
      SignLate(query, position, IndexFrom(query, '=', position), IndexFrom(query, '&', position));
    } else {
      FirstSegment(query, position);
      if IndexFrom(query, '&', position) < |query| {
        WalkIsPieces(query, IndexFrom(query, '&', position) + 1);
      }
    }
  }

  // The whole walk, for every query there is.
  lemma LockstepIsPieces(query: string)
    ensures PairsOfQuery(query) == PairsOfPieces(Split(query, '&'))
  {
    LockstepIsWalk(query, 0);
    WalkIsPieces(query, 0);
  }

  ghost function SplitPairs(pieces: seq<string>): Pairs
    requires forall p <- pieces :: OneSign(p)
  {
    if pieces == [] then End
    else
      assert OneSign(pieces[0]);
      var parts := Split(pieces[0], '=');
      More(Pair(parts[0], parts[1]), SplitPairs(pieces[1..]))
  }

  lemma NoSignNoSplit(piece: string)
    requires OneSign(piece)
    ensures '=' in piece
  {
    if '=' !in piece {
      SplitSingle(piece, '=');
    }
  }

  lemma {:induction false} RegularPieces(pieces: seq<string>)
    requires forall p <- pieces :: OneSign(p)
    ensures PairsOfPieces(pieces) == SplitPairs(pieces)
  {
    if pieces != [] {
      var first := pieces[0];
      assert first in pieces;
      NoSignNoSplit(first);
      OneSignIs(first);
      RegularPieces(pieces[1..]);
      assert |pieces| == 1 ==> SplitPairs(pieces[1..]) == End;
    }
  }

  // With exactly one equal sign in every segment, the walk sees what splitting on
  // ampersands and then on equal signs gives.
  lemma LockstepIsSplit(query: string)
    requires forall p <- Split(query, '&') :: OneSign(p)
    ensures PairsOfQuery(query) == SplitPairs(Split(query, '&'))
  {
    LockstepIsPieces(query);
    RegularPieces(Split(query, '&'));
  }
}
