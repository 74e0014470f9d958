// Twenty raw bytes in a URL: written as percent pairs, read back from any mix of
// percent pairs and plain characters.
module UrlBytes {
  import opened Base
  import opened Text

  const LENGTH := 20

  function HexDigit(n: nat): char
    requires n < 16
  {
    if n < 10 then ('0' as int + n) as char else ('a' as int + (n - 10)) as char
  }

  function HexValue(c: char): Option<nat> {
    if '0' <= c <= '9' then Some(c as int - '0' as int)
    else if 'a' <= c <= 'f' then Some(10 + (c as int - 'a' as int))
    else if 'A' <= c <= 'F' then Some(10 + (c as int - 'A' as int))
    else None
  }

  function PercentPair(b: u8): (s: string)
    ensures |s| == 3
  {
    ['%', HexDigit(b / 16), HexDigit(b % 16)]
  }

  function Encode(bytes: seq<u8>): (s: string)
    ensures |s| == 3 * |bytes|
  {
    if bytes == [] then ""
    else
      var n := |bytes| - 1;
      Encode(bytes[..n]) + PercentPair(bytes[n])
  }

  // `urlencode_20_bytes`: an array of percent signs is filled in by index.
  method UrlEncode20Bytes(input: seq<u8>) returns (tmp: array<char>)
    requires |input| == LENGTH
    ensures fresh(tmp) && tmp[..] == Encode(input)
  {
    tmp := new char[60](_ => '%');
    for i := 0 to LENGTH
      invariant tmp[..3 * i] == Encode(input[..i])
      invariant forall k :: 3 * i <= k < 60 ==> tmp[k] == '%'
    {
      tmp[3 * i + 1] := HexDigit(input[i] / 16);
      tmp[3 * i + 2] := HexDigit(input[i] % 16);
      assert input[..i + 1][..i] == input[..i];
      assert tmp[..3 * (i + 1)] == tmp[..3 * i] + PercentPair(input[i]);
    }
    assert input[..LENGTH] == input && tmp[..60] == tmp[..];
  }

  // `char as u8` keeps the low byte, whatever the character was.
  function LowByte(c: char): char {
    (c as int % 256) as char
  }

  function HexPair(first: char, second: char): Option<u8> {
    match (HexValue(LowByte(first)), HexValue(LowByte(second)))
    case (Some(high), Some(low)) =>
      HexValueSmall(LowByte(first));
      HexValueSmall(LowByte(second));
      Some(16 * high + low)
    case _ => None
  }

  lemma HexValueSmall(c: char)
    ensures HexValue(c).Some? ==> HexValue(c).value < 16
  {
  }

  // The byte at the front of a value and how many characters spell it.
  function NextByte(value: string): Option<(u8, nat)> {
    if value == "" || value[0] as int > 255 then None
    else if value[0] != '%' then Some((value[0] as int, 1))
    else if |value| < 3 then None
    else
      match HexPair(value[1], value[2])
      case None => None
      case Some(b) => Some((b, 3))
  }

  // Exactly `count` bytes and nothing after them.
  function Decode(value: string, count: nat): (r: Option<seq<u8>>)
    ensures r.Some? ==> |r.value| == count
    decreases count
  {
    if count == 0 then (if value == "" then Some([]) else None)
    else
      match NextByte(value)
      case None => None
      case Some((b, used)) =>
        if used > |value| then None
        else
          match Decode(value[used..], count - 1)
          case None => None
          case Some(rest) => Some([b] + rest)
  }

  function Prepend(bytes: seq<u8>, tail: Option<seq<u8>>): Option<seq<u8>> {
    match tail
    case None => None
    case Some(rest) => Some(bytes + rest)
  }

  lemma PrependNothing(tail: Option<seq<u8>>)
    ensures Prepend([], tail) == tail
  {
    if tail.Some? {
      assert [] + tail.value == tail.value;
    }
  }

  lemma DecodeStuck(bytes: seq<u8>, chars: string, count: nat)
    requires count > 0 && NextByte(chars) == None
    ensures Prepend(bytes, Decode(chars, count)) == None
  {
  }

  lemma DecodeEnd(bytes: seq<u8>, chars: string)
    ensures Prepend(bytes, Decode(chars, 0)) == if chars == "" then Some(bytes) else None
  {
    assert bytes + [] == bytes;
  }

  lemma DecodeStep(bytes: seq<u8>, chars: string, count: nat, b: u8, used: nat)
    requires count > 0 && used <= |chars| && NextByte(chars) == Some((b, used))
    ensures Prepend(bytes, Decode(chars, count)) == Prepend(bytes + [b], Decode(chars[used..], count - 1))
  {
    var tail := Decode(chars[used..], count - 1);
    if tail.Some? {
      assert bytes + ([b] + tail.value) == bytes + [b] + tail.value;
    }
  }

  // One byte of the value, as the loop below takes it.
  method TakeByte(chars: string) returns (next: Option<(u8, nat)>)
    ensures next == NextByte(chars)
  {
    if chars == "" || chars[0] as int > 255 {
      return None;
    }
    if chars[0] != '%' {
      return Some((chars[0] as int, 1));
    }
    if |chars| < 3 {
      return None;
    }
    var pair := HexPair(chars[1], chars[2]);
    next := if pair.None? then None else Some((pair.value, 3));
  }

  // `urldecode_20_bytes`
  method UrlDecode20Bytes(value: string) returns (r: Option<seq<u8>>)
    ensures r == Decode(value, LENGTH)
  {
    var bytes: seq<u8> := [];
    var chars := value;
    ghost var whole := Decode(value, LENGTH);
    PrependNothing(whole);
    for i := 0 to LENGTH
      invariant |bytes| == i
      invariant Prepend(bytes, Decode(chars, LENGTH - i)) == whole
    {
      var next := TakeByte(chars);
      if next.None? {
        DecodeStuck(bytes, chars, LENGTH - i);
        return None;
      }
      var (b, used) := next.value;
      DecodeStep(bytes, chars, LENGTH - i, b, used);
      chars := chars[used..];
      bytes := bytes + [b];
    }
    DecodeEnd(bytes, chars);
    r := if chars != "" then None else Some(bytes);
  }

  lemma PairRoundTrip(b: u8, rest: string)
    ensures NextByte(PercentPair(b) + rest) == Some((b, 3))
    ensures (PercentPair(b) + rest)[3..] == rest
  {
    assert HexValue(LowByte(HexDigit(b / 16))) == Some(b / 16);
    assert HexValue(LowByte(HexDigit(b % 16))) == Some(b % 16);
  }

  lemma EncodeFront(bytes: seq<u8>)
    requires bytes != []
    ensures Encode(bytes) == PercentPair(bytes[0]) + Encode(bytes[1..])
    decreases |bytes|
  {
    var n := |bytes| - 1;
    if n > 0 {
      EncodeFront(bytes[..n]);
      assert bytes[..n][1..] == bytes[1..][..n - 1];
      var first, middle, last := PercentPair(bytes[0]), Encode(bytes[1..][..n - 1]), PercentPair(bytes[n]);
      assert (first + middle) + last == first + (middle + last);
    } else {
      assert bytes[..0] == [] && bytes[1..] == [];
    }
  }

  // What was written is read back.
  lemma {:induction false} DecodeOfEncode(bytes: seq<u8>)
    ensures Decode(Encode(bytes), |bytes|) == Some(bytes)
  {
    if bytes != [] {
      EncodeFront(bytes);
      PairRoundTrip(bytes[0], Encode(bytes[1..]));
      DecodeOfEncode(bytes[1..]);
      assert [bytes[0]] + bytes[1..] == bytes;
    }
  }

  // ------------------------------------------------ what the decoder accepts

  // A hex digit in either case.
  ghost predicate IsHexOf(c: char, n: nat)
    requires n < 16
  {
    c == HexDigit(n) || (n >= 10 && c as int == 'A' as int + (n - 10))
  }

  // How a text may spell bytes: one after the other, each as a character up to
  // 255 that is not a percent sign, or as a percent sign and two hex digits.
  ghost predicate Spells(value: string, bytes: seq<u8>)
    decreases |bytes|
  {
    if bytes == [] then value == ""
    else
      || (value != "" && value[0] != '%' && value[0] as int == bytes[0] && Spells(value[1..], bytes[1..]))
      || (|value| >= 3 && value[0] == '%' && IsHexOf(value[1], bytes[0] / 16) && IsHexOf(value[2], bytes[0] % 16)
          && Spells(value[3..], bytes[1..]))
  }

  // The decoder as it was meant: whole characters are compared.
  ghost function StrictNext(value: string): Option<(u8, nat)> {
    if value == "" || value[0] as int > 255 then None
    else if value[0] != '%' then Some((value[0] as int, 1))
    else if |value| < 3 then None
    else
      match (HexValue(value[1]), HexValue(value[2]))
      case (Some(high), Some(low)) => Some((16 * high + low, 3))
      case _ => None
  }

  ghost function StrictDecode(value: string, count: nat): (r: Option<seq<u8>>)
    ensures r.Some? ==> |r.value| == count
    decreases count
  {
    if count == 0 then (if value == "" then Some([]) else None)
    else
      match StrictNext(value)
      case None => None
      case Some((b, used)) =>
        if used > |value| then None
        else
          match StrictDecode(value[used..], count - 1)
          case None => None
          case Some(rest) => Some([b] + rest)
  }

  lemma HexValueIs(c: char, n: nat)
    requires n < 16
    ensures HexValue(c) == Some(n) <==> IsHexOf(c, n)
  {
  }

  lemma SplitByte(b: u8, high: nat, low: nat)
    requires high < 16 && low < 16
    ensures b == 16 * high + low <==> high == b / 16 && low == b % 16
  {
  }

  lemma StrictNextIs(value: string, b: u8)
    ensures StrictNext(value) == Some((b, 1)) <==> value != "" && value[0] != '%' && value[0] as int == b
    ensures StrictNext(value) == Some((b, 3)) <==>
      |value| >= 3 && value[0] == '%' && IsHexOf(value[1], b / 16) && IsHexOf(value[2], b % 16)
  {
    if |value| >= 3 && value[0] == '%' {
      HexValueIs(value[1], b / 16);
      HexValueIs(value[2], b % 16);
      HexValueSmall(value[1]);
      HexValueSmall(value[2]);
      if HexValue(value[1]).Some? && HexValue(value[2]).Some? {
        SplitByte(b, HexValue(value[1]).value, HexValue(value[2]).value);
      }
    }
  }

  // The strict decoder accepts exactly the spellings, and reads each as the bytes
  // it spells.
  lemma {:induction false} StrictIsSpelling(value: string, bytes: seq<u8>)
    ensures StrictDecode(value, |bytes|) == Some(bytes) <==> Spells(value, bytes)
    decreases |bytes|
  {
    if bytes != [] {
      StrictNextIs(value, bytes[0]);
      if StrictNext(value).Some? {
        var used := StrictNext(value).value.1;
        StrictIsSpelling(value[used..], bytes[1..]);
        var rest := StrictDecode(value[used..], |bytes| - 1);
        if rest.Some? {
          assert [StrictNext(value).value.0] + rest.value == bytes <==>
            StrictNext(value).value.0 == bytes[0] && rest.value == bytes[1..];
        }
      }
    }
  }

  // A character beyond the byte range whose low byte is a hex digit.
  predicate IsForeign(c: char) {
    c as int > 255 && HexValue(LowByte(c)).Some?
  }

  ghost predicate ForeignAt(value: string, k: nat)
    requires k + 2 < |value|
  {
    value[k] == '%' && (IsForeign(value[k + 1]) || IsForeign(value[k + 2]))
  }

  ghost predicate HasForeignPair(value: string) {
    exists k: nat :: k + 2 < |value| && ForeignAt(value, k)
  }

  lemma ForeignAfter(value: string, used: nat)
    requires NextByte(value).Some? && NextByte(value).value.1 == used <= |value|
    ensures HasForeignPair(value) <==> (used == 3 && ForeignAt(value, 0)) || HasForeignPair(value[used..])
  {
    var rest := value[used..];
    if k: nat :| k + 2 < |rest| && ForeignAt(rest, k) {
      assert ForeignAt(value, k + used);
    }
    if k: nat :| k + 2 < |value| && ForeignAt(value, k) {
      if k >= used {
        assert ForeignAt(rest, k - used);
      } else {
        assert HexValue(LowByte('%')) == None;
        assert k == 0;
      }
    }
  }

  lemma StrictNextOrForeign(value: string)
    requires NextByte(value).Some?
    ensures if NextByte(value).value.1 == 3 && ForeignAt(value, 0) then StrictNext(value) == None
      else StrictNext(value) == NextByte(value)
  {
  }

  lemma RealDigit(c: char)
    ensures HexValue(c).Some? ==> LowByte(c) == c
  {
  }

  lemma StrictNextAgrees(value: string)
    ensures StrictNext(value).Some? ==> NextByte(value) == StrictNext(value)
  {
    if |value| >= 3 {
      RealDigit(value[1]);
      RealDigit(value[2]);
    }
  }

  // The decoder never refuses or misreads what the strict one reads. It accepts
  // beyond that exactly when some percent pair of the value holds a character
  // above 255 whose low byte is a hex digit.
  lemma {:induction false} DecodeIsStrictOrForeign(value: string, count: nat)
    ensures StrictDecode(value, count).Some? ==> Decode(value, count) == StrictDecode(value, count)
    ensures Decode(value, count).Some? ==> (StrictDecode(value, count) == None <==> HasForeignPair(value))
    decreases count
  {
    if count > 0 {
      StrictNextAgrees(value);
      if NextByte(value).Some? {
        var used := NextByte(value).value.1;
        StrictNextOrForeign(value);
        ForeignAfter(value, used);
        DecodeIsStrictOrForeign(value[used..], count - 1);
      }
    }
  }

  // On bytes, then, the decoder is exact: it accepts the spellings of twenty bytes
  // and nothing else.
  lemma DecodeIsSpelling(value: string, bytes: seq<u8>)
    requires forall c <- value :: c as int <= 255
    ensures Decode(value, |bytes|) == Some(bytes) <==> Spells(value, bytes)
  {
    DecodeIsStrictOrForeign(value, |bytes|);
    StrictIsSpelling(value, bytes);
    if k: nat :| k + 2 < |value| && ForeignAt(value, k) {
      assert value[k + 1] in value && value[k + 2] in value;
    }
  }

  function Letters(n: nat): string {
    if n == 0 then "" else "a" + Letters(n - 1)
  }

  lemma {:induction false} LettersDecode(n: nat)
    ensures Decode(Letters(n), n).Some?
  {
    if n > 0 {
      assert Letters(n)[1..] == Letters(n - 1);
      LettersDecode(n - 1);
    }
  }

  // U+0130 passes for the digit 0, in a value of twenty bytes that is accepted.
  lemma ForeignHexDigit()
    ensures var value := ['%', '\U{0130}', '0'] + Letters(LENGTH - 1);
      Decode(value, LENGTH).Some? && StrictDecode(value, LENGTH) == None
  {
    var rest := Letters(LENGTH - 1);
    var value := ['%', '\U{0130}', '0'] + rest;
    LettersDecode(LENGTH - 1);
    assert value[3..] == rest;
    assert NextByte(value) == Some((0, 3));
  }

  lemma {:induction false} EncodedAlphabet(bytes: seq<u8>)
    ensures forall c <- Encode(bytes) :: c == '%' || IsDigit(c) || 'a' <= c <= 'f'
  {
    if bytes != [] {
      EncodedAlphabet(bytes[..|bytes| - 1]);
    }
  }
}
