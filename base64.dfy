/** Base64 as section 4 of RFC 4648 defines it (the alphabet `A`-`Z`, `a`-`z`,
    `0`-`9`, `+`, `/`, padded with `=`): what Python's `base64.b64encode`
    produces. The decoder exists to state the round trip. */
module Base64 {
  import opened Wrappers
  import Utf8

  type Byte = Utf8.Byte

  type Sextet = v: int | 0 <= v < 64

  /** The character for a 6-bit value (Table 1 of RFC 4648). */
  function SextetChar(v: Sextet): char {
    if v < 26 then ('A' as int + v) as char
    else if v < 52 then ('a' as int + (v - 26)) as char
    else if v < 62 then ('0' as int + (v - 52)) as char
    else if v == 62 then '+'
    else '/'
  }

  /** The 6-bit value of an alphabet character; `None` for any other character, `=` included. */
  function SextetValue(c: char): (r: Option<Sextet>)
    ensures r.Some? ==> SextetChar(r.value) == c
  {
    if 'A' <= c <= 'Z' then Some(c as int - 'A' as int)
    else if 'a' <= c <= 'z' then Some(c as int - 'a' as int + 26)
    else if '0' <= c <= '9' then Some(c as int - '0' as int + 52)
    else if c == '+' then Some(62)
    else if c == '/' then Some(63)
    else None
  }

  lemma SextetRoundTrip(v: Sextet)
    ensures SextetValue(SextetChar(v)) == Some(v)
  {
  }

  /** Three bytes become four characters. */
  function EncodeBlock(b0: Byte, b1: Byte, b2: Byte): (r: string)
    ensures |r| == 4
  {
    [SextetChar(b0 / 4), SextetChar((b0 % 4) * 16 + b1 / 16), SextetChar((b1 % 16) * 4 + b2 / 64), SextetChar(b2 % 64)]
  }

  function Encode(b: seq<Byte>): (s: string)
    ensures |s| == 4 * ((|b| + 2) / 3)
  {
    if |b| == 0 then []
    else if |b| == 1 then [SextetChar(b[0] / 4), SextetChar((b[0] % 4) * 16), '=', '=']
    else if |b| == 2 then [SextetChar(b[0] / 4), SextetChar((b[0] % 4) * 16 + b[1] / 16), SextetChar((b[1] % 16) * 4), '=']
    else EncodeBlock(b[0], b[1], b[2]) + Encode(b[3..])
  }

  predicate WellPadded(s: string) {
    forall k :: 0 <= k < |s| ==> SextetValue(s[k]).Some? || (s[k] == '=' && k >= |s| - 2)
  }

  /** Every character of an encoding is an alphabet character or padding, and padding comes only at the end. */
  lemma {:induction false} EncodeAlphabet(b: seq<Byte>)
    ensures WellPadded(Encode(b))
  {
    if |b| == 1 {
      SextetRoundTrip(b[0] / 4);
      SextetRoundTrip((b[0] % 4) * 16);
    } else if |b| == 2 {
      SextetRoundTrip(b[0] / 4);
      SextetRoundTrip((b[0] % 4) * 16 + b[1] / 16);
      SextetRoundTrip((b[1] % 16) * 4);
    } else if |b| >= 3 {
      EncodeAlphabet(b[3..]);
      SextetRoundTrip(b[0] / 4);
      SextetRoundTrip((b[0] % 4) * 16 + b[1] / 16);
      SextetRoundTrip((b[1] % 16) * 4 + b[2] / 64);
      SextetRoundTrip(b[2] % 64);
      var q := EncodeBlock(b[0], b[1], b[2]);
      var t := Encode(b[3..]);
      var s := Encode(b);
      assert s == q + t;
      assert WellPadded(q);
      forall k | 0 <= k < |s|
        ensures SextetValue(s[k]).Some? || (s[k] == '=' && k >= |s| - 2)
      {
        if k < 4 {
          assert s[k] == q[k];
        } else {
          assert s[k] == t[k - 4];
        }
      }
    }
  }

  /** Four characters become one, two or three bytes; `None` if they are not a valid quantum. */
  function DecodeQuad(q: string): (r: Option<seq<Byte>>)
    requires |q| == 4
    ensures r.Some? ==> 1 <= |r.value| <= 3
  {
    var v0, v1 := SextetValue(q[0]), SextetValue(q[1]);
    if v0.None? || v1.None? then None
    else if q[2] == '=' && q[3] == '=' then
      Some([v0.value * 4 + v1.value / 16])
    else
      var v2 := SextetValue(q[2]);
      if v2.None? then None
      else if q[3] == '=' then
        Some([v0.value * 4 + v1.value / 16, (v1.value % 16) * 16 + v2.value / 4])
      else
        var v3 := SextetValue(q[3]);
        if v3.None? then None
        else Some([v0.value * 4 + v1.value / 16, (v1.value % 16) * 16 + v2.value / 4, (v2.value % 4) * 64 + v3.value])
  }

  function Decode(s: string): Option<seq<Byte>>
    decreases |s|
  {
    if |s| == 0 then Some([])
    else if |s| < 4 then None
    else
      match DecodeQuad(s[..4])
      case None => None
      case Some(head) =>
        if |head| < 3 then (if |s| == 4 then Some(head) else None)
        else
          match Decode(s[4..])
          case None => None
          case Some(tail) => Some(head + tail)
  }

  lemma SplitByte(b: Byte, k: int)
    requires k == 4 || k == 16 || k == 64
    ensures b == (b / k) * k + b % k
    ensures 0 <= b % k < k && 0 <= b / k < 256 / k
  {
  }

  lemma BlockRoundTrip(b0: Byte, b1: Byte, b2: Byte)
    ensures DecodeQuad(EncodeBlock(b0, b1, b2)) == Some([b0, b1, b2])
  {
    var v0, v1, v2, v3 := b0 / 4, (b0 % 4) * 16 + b1 / 16, (b1 % 16) * 4 + b2 / 64, b2 % 64;
    SextetRoundTrip(v0); SextetRoundTrip(v1); SextetRoundTrip(v2); SextetRoundTrip(v3);
    SplitByte(b0, 4); SplitByte(b1, 16); SplitByte(b2, 64);
    assert v1 / 16 == b0 % 4 && v1 % 16 == b1 / 16;
    assert v2 / 4 == b1 % 16 && v2 % 4 == b2 / 64;
  }

  lemma OneByteRoundTrip(b0: Byte)
    ensures Decode([SextetChar(b0 / 4), SextetChar((b0 % 4) * 16), '=', '=']) == Some([b0])
  {
    var s := [SextetChar(b0 / 4), SextetChar((b0 % 4) * 16), '=', '='];
    SextetRoundTrip(b0 / 4); SextetRoundTrip((b0 % 4) * 16);
    SplitByte(b0, 4);
    assert s[..4] == s;
  }

  lemma TwoByteRoundTrip(b0: Byte, b1: Byte)
    ensures Decode([SextetChar(b0 / 4), SextetChar((b0 % 4) * 16 + b1 / 16), SextetChar((b1 % 16) * 4), '=']) == Some([b0, b1])
  {
    var s := [SextetChar(b0 / 4), SextetChar((b0 % 4) * 16 + b1 / 16), SextetChar((b1 % 16) * 4), '='];
    var v1 := (b0 % 4) * 16 + b1 / 16;
    SextetRoundTrip(b0 / 4); SextetRoundTrip(v1); SextetRoundTrip((b1 % 16) * 4);
    SplitByte(b0, 4); SplitByte(b1, 16);
    assert v1 / 16 == b0 % 4 && v1 % 16 == b1 / 16;
    assert s[..4] == s;
  }

  lemma DecodeFullQuantum(q: string, t: string)
    requires |q| == 4 && DecodeQuad(q).Some? && |DecodeQuad(q).value| == 3
    requires Decode(t).Some?
    ensures Decode(q + t) == Some(DecodeQuad(q).value + Decode(t).value)
  {
    var s := q + t;
    assert s[..4] == q;
    assert s[4..] == t;
  }

  lemma EncodeFullBlock(b: seq<Byte>)
    requires |b| >= 3
    ensures Encode(b) == EncodeBlock(b[0], b[1], b[2]) + Encode(b[3..])
  {
  }

  lemma DecodeBlockThenRest(b: seq<Byte>)
    requires |b| >= 3 && Decode(Encode(b[3..])) == Some(b[3..])
    ensures Decode(EncodeBlock(b[0], b[1], b[2]) + Encode(b[3..])) == Some(b)
  {
    BlockRoundTrip(b[0], b[1], b[2]);
    assert b[..3] == [b[0], b[1], b[2]];
    DecodeFullQuantum(EncodeBlock(b[0], b[1], b[2]), Encode(b[3..]));
    assert b[..3] + b[3..] == b;
  }

  /** Decoding an encoding gives the bytes back (RFC 4648 encoding is lossless). */
  lemma {:induction false} DecodeEncode(b: seq<Byte>)
    ensures Decode(Encode(b)) == Some(b)
  {
    if |b| == 1 {
      OneByteRoundTrip(b[0]);
      assert Encode(b) == [SextetChar(b[0] / 4), SextetChar((b[0] % 4) * 16), '=', '='];
      assert [b[0]] == b;
    } else if |b| == 2 {
      TwoByteRoundTrip(b[0], b[1]);
      assert Encode(b) == [SextetChar(b[0] / 4), SextetChar((b[0] % 4) * 16 + b[1] / 16), SextetChar((b[1] % 16) * 4), '='];
      assert [b[0], b[1]] == b;
    } else if |b| >= 3 {
      DecodeEncode(b[3..]);
      DecodeBlockThenRest(b);
      EncodeFullBlock(b);
    }
  }

  lemma EncodeInjective(a: seq<Byte>, b: seq<Byte>)
    requires Encode(a) == Encode(b)
    ensures a == b
  {
    DecodeEncode(a);
    DecodeEncode(b);
  }

  /** `base64.b64encode(text.encode()).decode()` for a Python string. */
  function EncodeText(text: string): (r: string)
    ensures |r| == 4 * ((|Utf8.Encode(text)| + 2) / 3)
  {
    Encode(Utf8.Encode(text))
  }

  /** Decoding Base64 and then UTF-8 gives the text back. */
  lemma DecodeEncodeText(text: string)
    ensures Decode(EncodeText(text)) == Some(Utf8.Encode(text))
    ensures Utf8.Decode(Decode(EncodeText(text)).value) == Some(text)
  {
    DecodeEncode(Utf8.Encode(text));
    Utf8.DecodeEncode(text);
  }
}
