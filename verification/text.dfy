// The text functions the list files and the query parser are built from:
// lines, trimming, splitting, tokens and decimal numbers.
module Text {
  import opened Base

  // char::is_whitespace: the Unicode White_Space property.
  predicate IsSpace(c: char) {
    var n := c as int;
    || 0x9 <= n <= 0xD || n == 0x20 || n == 0x85 || n == 0xA0 || n == 0x1680
    || 0x2000 <= n <= 0x200A || n == 0x2028 || n == 0x2029 || n == 0x202F
    || n == 0x205F || n == 0x3000
  }

  predicate NoSpace(s: string) {
    forall c <- s :: !IsSpace(c)
  }

  // Index of the first `c`, or |s| when there is none.
  function IndexOf(s: string, c: char): (i: nat)
    ensures i <= |s|
    ensures i < |s| ==> s[i] == c
    ensures forall k :: 0 <= k < i ==> s[k] != c
  {
    if s == "" || s[0] == c then 0 else 1 + IndexOf(s[1..], c)
  }

  lemma IndexOfIs(s: string, c: char, i: nat)
    requires i <= |s|
    requires i < |s| ==> s[i] == c
    requires forall k :: 0 <= k < i ==> s[k] != c
    ensures IndexOf(s, c) == i
  {
    var j := IndexOf(s, c);
  }

  // Index of the next `c` at or after `from`, or |s|.
  function IndexFrom(s: string, c: char, from: nat): (i: nat)
    requires from <= |s|
    ensures from <= i <= |s|
    decreases |s| - from
  {
    if from == |s| || s[from] == c then from else IndexFrom(s, c, from + 1)
  }

  lemma {:induction false} IndexFromFinds(s: string, c: char, from: nat)
    requires from <= |s|
    ensures var i := IndexFrom(s, c, from);
      && (i < |s| ==> s[i] == c)
      && forall k :: from <= k < i ==> s[k] != c
    decreases |s| - from
  {
    if from < |s| && s[from] != c {
      IndexFromFinds(s, c, from + 1);
    }
  }

  lemma IndexFromIs(s: string, c: char, from: nat, i: nat)
    requires from <= i <= |s|
    requires i < |s| ==> s[i] == c
    requires forall k :: from <= k < i ==> s[k] != c
    ensures IndexFrom(s, c, from) == i
  {
    IndexFromFinds(s, c, from);
  }

  // ------------------------------------------------------------ trimming

  function TrimStart(s: string): string {
    if s != "" && IsSpace(s[0]) then TrimStart(s[1..]) else s
  }

  function TrimEnd(s: string): string {
    if s != "" && IsSpace(s[|s| - 1]) then TrimEnd(s[..|s| - 1]) else s
  }

  function Trim(s: string): string {
    TrimEnd(TrimStart(s))
  }

  // ------------------------------------------------------------ splitting

  // str::split on one character: always at least one piece.
  function Split(s: string, c: char): (pieces: seq<string>)
    ensures pieces != []
  {
    SplitFrom(s, c, 0)
  }

  // The pieces from the one that starts at `from` on.
  function SplitFrom(s: string, c: char, from: nat): (pieces: seq<string>)
    requires from <= |s|
    ensures pieces != []
    decreases |s| - from
  {
    var end := IndexFrom(s, c, from);
    if end == |s| then [s[from..end]] else [s[from..end]] + SplitFrom(s, c, end + 1)
  }

  lemma SplitSingle(s: string, c: char)
    requires c !in s
    ensures Split(s, c) == [s]
  {
    IndexFromIs(s, c, 0, |s|);
    assert s[0..|s|] == s;
  }

  lemma IndexShift(s: string, rest: string, off: nat, c: char, k: nat)
    requires off + |rest| == |s| && k <= |rest|
    requires forall i :: 0 <= i < |rest| ==> s[off + i] == rest[i]
    ensures IndexFrom(s, c, off + k) == off + IndexFrom(rest, c, k)
    decreases |rest| - k
  {
    if k < |rest| && rest[k] != c {
      IndexShift(s, rest, off, c, k + 1);
    }
  }

  lemma SliceShift(s: string, rest: string, off: nat, k: nat, end: nat)
    requires off + |rest| == |s| && k <= end <= |rest|
    requires forall i :: 0 <= i < |rest| ==> s[off + i] == rest[i]
    ensures s[off + k..off + end] == rest[k..end]
  {
  }

  lemma {:induction false} SplitShift(s: string, rest: string, off: nat, c: char, k: nat)
    requires off + |rest| == |s| && k <= |rest|
    requires forall i :: 0 <= i < |rest| ==> s[off + i] == rest[i]
    ensures SplitFrom(s, c, off + k) == SplitFrom(rest, c, k)
    decreases |rest| - k
  {
    IndexShift(s, rest, off, c, k);
    SliceShift(s, rest, off, k, IndexFrom(rest, c, k));
    if IndexFrom(rest, c, k) < |rest| {
      SplitShift(s, rest, off, c, IndexFrom(rest, c, k) + 1);
    }
  }

  lemma SplitCons(a: string, c: char, rest: string)
    requires c !in a
    ensures Split(a + [c] + rest, c) == [a] + Split(rest, c)
  {
    var s := a + [c] + rest;
    IndexFromIs(s, c, 0, |a|);
    assert s[0..|a|] == a;
    SplitShift(s, rest, |a| + 1, c, 0);
  }

  // str::split_whitespace
  function Tokens(s: string): (tokens: seq<string>)
    decreases |s|
  {
    if s == "" then []
    else if IsSpace(s[0]) then Tokens(s[1..])
    else
      var i := SpaceIndex(s);
      [s[..i]] + Tokens(s[i..])
  }

  // Index of the first white space, or |s|.
  function SpaceIndex(s: string): (i: nat)
    ensures i <= |s|
    ensures i < |s| ==> IsSpace(s[i])
    ensures forall k :: 0 <= k < i ==> !IsSpace(s[k])
    ensures s != "" && !IsSpace(s[0]) ==> i > 0
  {
    if s == "" || IsSpace(s[0]) then 0 else 1 + SpaceIndex(s[1..])
  }

  lemma TwoTokens(a: string, b: string)
    requires a != "" && NoSpace(a) && b != "" && NoSpace(b)
    ensures Tokens(a + " " + b) == [a, b]
  {
    FirstToken(a, " " + b);
    FirstToken(b, "");
    assert a + " " + b == a + (" " + b);
    assert b + "" == b;
    assert (" " + b)[1..] == b;
  }

  lemma FirstToken(a: string, rest: string)
    requires a != "" && NoSpace(a) && (rest != "" ==> IsSpace(rest[0]))
    ensures Tokens(a + rest) == [a] + Tokens(rest)
  {
    var s := a + rest;
    assert forall k :: 0 <= k < |a| ==> s[k] == a[k] && !IsSpace(s[k]);
    assert rest != "" ==> s[|a|] == rest[0];
    assert SpaceIndex(s) == |a|;
    assert s[..|a|] == a && s[|a|..] == rest;
  }

  lemma TrimNoSpaceEnds(s: string)
    requires s != "" && !IsSpace(s[0]) && !IsSpace(s[|s| - 1])
    ensures Trim(s) == s
  {
  }

  predicate AllSpace(s: string) {
    forall c <- s :: IsSpace(c)
  }

  lemma {:induction false} TrimStartOf(before: string, rest: string)
    requires AllSpace(before) && (rest != "" ==> !IsSpace(rest[0]))
    ensures TrimStart(before + rest) == rest
    decreases |before|
  {
    if before == "" {
      assert before + rest == rest;
    } else {
      assert before[0] in before && forall c <- before[1..] :: c in before;
      assert (before + rest)[1..] == before[1..] + rest;
      TrimStartOf(before[1..], rest);
    }
  }

  lemma {:induction false} TrimEndOf(core: string, after: string)
    requires AllSpace(after) && (core != "" ==> !IsSpace(core[|core| - 1]))
    ensures TrimEnd(core + after) == core
    decreases |after|
  {
    if after == "" {
      assert core + after == core;
    } else {
      var n := |after| - 1;
      assert after[n] in after && forall c <- after[..n] :: c in after;
      assert (core + after)[..|core| + n] == core + after[..n];
      TrimEndOf(core, after[..n]);
    }
  }

  // White space around a text goes, and nothing else.
  lemma TrimOf(before: string, core: string, after: string)
    requires AllSpace(before) && AllSpace(after)
    requires core != "" && !IsSpace(core[0]) && !IsSpace(core[|core| - 1])
    ensures Trim(before + core + after) == core
  {
    assert before + core + after == before + (core + after);
    assert (core + after)[0] == core[0];
    TrimStartOf(before, core + after);
    TrimEndOf(core, after);
  }

  lemma TrimOfSpace(s: string)
    requires AllSpace(s)
    ensures Trim(s) == ""
  {
    TrimStartOf(s, "");
    assert s + "" == s;
  }

  lemma {:induction false} TokensAfterSpace(gap: string, rest: string)
    requires AllSpace(gap)
    ensures Tokens(gap + rest) == Tokens(rest)
    decreases |gap|
  {
    if gap == "" {
      assert gap + rest == rest;
    } else {
      assert gap[0] in gap && forall c <- gap[1..] :: c in gap;
      assert (gap + rest)[1..] == gap[1..] + rest;
      TokensAfterSpace(gap[1..], rest);
    }
  }

  // ------------------------------------------------------------ lines

  // str::lines. A carriage return before the newline is left in place: every
  // reader modelled here trims its lines.
  function Lines(s: string): seq<string>
    decreases |s|
  {
    if s == "" then []
    else
      var i := IndexOf(s, '\n');
      if i == |s| then [s] else [s[..i]] + Lines(s[i + 1..])
  }

  // Whether the next append starts on a fresh line.
  predicate EndsWithNewline(s: string) {
    s == "" || s[|s| - 1] == '\n'
  }

  lemma {:induction false} LinesConcat(a: string, b: string)
    requires EndsWithNewline(a)
    ensures Lines(a + b) == Lines(a) + Lines(b)
    decreases |a|
  {
    if a == "" {
      assert a + b == b;
    } else {
      var i := IndexOf(a, '\n');
      assert i < |a|;
      IndexOfIs(a + b, '\n', i);
      assert (a + b)[..i] == a[..i];
      assert (a + b)[i + 1..] == a[i + 1..] + b;
      LinesConcat(a[i + 1..], b);
    }
  }

  // A newline that ends an unfinished last line adds no line.
  lemma {:induction false} LinesTerminate(a: string)
    requires !EndsWithNewline(a)
    ensures Lines(a + "\n") == Lines(a)
    decreases |a|
  {
    var i := IndexOf(a, '\n');
    var s := a + "\n";
    IndexOfIs(s, '\n', i);
    assert s[..i] == a[..i];
    if i == |a| {
      assert a[..i] == a;
      assert s[i + 1..] == "";
      assert Lines(s) == [a] + Lines("");
    } else {
      var rest := a[i + 1..];
      assert s[i + 1..] == rest + "\n";
      assert rest != "" && rest[|rest| - 1] == a[|a| - 1];
      LinesTerminate(rest);
    }
  }

  // Text that is appended to a file either because the file ends with a
  // newline or because the text brings one along.
  predicate AppendsCleanly(a: string, b: string) {
    EndsWithNewline(a) || b == "" || b[0] == '\n'
  }

  // A clean append never disturbs a line that was there before, finished or not.
  lemma LinesKeepPrefix(a: string, b: string)
    requires AppendsCleanly(a, b)
    ensures Lines(a) <= Lines(a + b)
  {
    if b == "" {
      assert a + b == a;
    } else if EndsWithNewline(a) {
      LinesConcat(a, b);
    } else {
      assert a + b == (a + "\n") + b[1..];
      LinesTerminate(a);
      LinesConcat(a + "\n", b[1..]);
    }
  }

  lemma LinesSingle(s: string)
    requires '\n' !in s
    ensures Lines(s + "\n") == [s]
  {
    IndexOfIs(s + "\n", '\n', |s|);
    assert (s + "\n")[..|s|] == s;
    assert (s + "\n")[|s| + 1..] == "";
  }

  // ------------------------------------------------------------ decimals

  predicate IsDigit(c: char) {
    '0' <= c <= '9'
  }

  function Digit(d: nat): char
    requires d < 10
  {
    ('0' as int + d) as char
  }

  function Decimal(n: nat): (s: string)
    ensures s != "" && forall c <- s :: IsDigit(c)
  {
    if n < 10 then [Digit(n)] else Decimal(n / 10) + [Digit(n % 10)]
  }

  function ParseDigits(s: string): Option<nat> {
    if s == "" then None
    else
      var c := s[|s| - 1];
      if !IsDigit(c) then None
      else if |s| == 1 then Some(c as int - '0' as int)
      else
        match ParseDigits(s[..|s| - 1])
        case None => None
        case Some(n) => Some(10 * n + (c as int - '0' as int))
  }

  // The integer FromStr of an unsigned type: an optional '+', then digits, and
  // a value that fits.
  function ParseUnsigned(s: string, max: nat): Option<nat> {
    var digits := if s != "" && s[0] == '+' then s[1..] else s;
    match ParseDigits(digits)
    case None => None
    case Some(n) => if n <= max then Some(n) else None
  }

  // FromStr of i128.
  function ParseI128(s: string): Option<int> {
    if s != "" && s[0] == '-' then
      match ParseDigits(s[1..])
      case None => None
      case Some(n) => if n <= I128_MAX + 1 then Some(0 - n) else None
    else
      match ParseUnsigned(s, I128_MAX)
      case None => None
      case Some(n) => Some(n)
  }

  lemma {:induction false} DecimalRoundTrip(n: nat)
    ensures ParseDigits(Decimal(n)) == Some(n)
  {
    if n >= 10 {
      DecimalRoundTrip(n / 10);
      var s := Decimal(n);
      assert s[..|s| - 1] == Decimal(n / 10);
    }
  }

  lemma UnsignedRoundTrip(n: nat, max: nat)
    requires n <= max
    ensures ParseUnsigned(Decimal(n), max) == Some(n)
  {
    DecimalRoundTrip(n);
    var s := Decimal(n);
    assert IsDigit(s[0]);
  }

  lemma I128RoundTrip(n: nat)
    requires n <= I128_MAX
    ensures ParseI128(Decimal(n)) == Some(n)
  {
    UnsignedRoundTrip(n, I128_MAX);
    var s := Decimal(n);
    assert IsDigit(s[0]);
  }
}
