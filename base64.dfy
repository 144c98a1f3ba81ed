/** The base64 encoding of section 4 of RFC 4648, as PHP's base64_encode
    computes it, with a reference decoder that inverts it. */
module Base64 {
  import opened PhpValues

  newtype byte = x: int | 0 <= x < 256

  /** A PHP string is a sequence of bytes: every character is below 256. */
  predicate IsByteString(s: string) {
    forall i | 0 <= i < |s| :: s[i] as int < 256
  }

  type ByteString = s: string | IsByteString(s) witness ""

  function ToBytes(s: ByteString): (b: seq<byte>)
    ensures |b| == |s|
    ensures forall i | 0 <= i < |s| :: b[i] as int == s[i] as int
  {
    seq(|s|, i requires 0 <= i < |s| => s[i] as int as byte)
  }

  lemma ConcatIsByteString(a: ByteString, b: ByteString)
    ensures IsByteString(a + b)
  {
    assert forall i | 0 <= i < |a + b| :: (a + b)[i] == if i < |a| then a[i] else b[i - |a|];
  }

  /** The character of the base64 alphabet (table 1 of RFC 4648) for a 6-bit value. */
  function Digit(n: int): (c: char)
    requires 0 <= n < 64
    ensures IsDigit(c) && DigitValue(c) == n
  {
    if n < 26 then ('A' as int + n) as char
    else if n < 52 then ('a' as int + n - 26) as char
    else if n < 62 then ('0' as int + n - 52) as char
    else if n == 62 then '+'
    else '/'
  }

  predicate IsDigit(c: char) {
    ('A' <= c <= 'Z') || ('a' <= c <= 'z') || ('0' <= c <= '9') || c == '+' || c == '/'
  }

  function DigitValue(c: char): (n: int)
    requires IsDigit(c)
    ensures 0 <= n < 64
  {
    if 'A' <= c <= 'Z' then c as int - 'A' as int
    else if 'a' <= c <= 'z' then c as int - 'a' as int + 26
    else if '0' <= c <= '9' then c as int - '0' as int + 52
    else if c == '+' then 62
    else 63
  }

  /** The four characters for three bytes, or for the padded final one or two. */
  function EncodeGroup(s: seq<byte>): (q: string)
    requires 1 <= |s| <= 3
    ensures |q| == 4
  {
    var a := s[0] as int;
    var b := if |s| > 1 then s[1] as int else 0;
    var c := if |s| > 2 then s[2] as int else 0;
    [Digit(a / 4), Digit(a % 4 * 16 + b / 16)]
    + (if |s| > 1 then [Digit(b % 16 * 4 + c / 64)] else "=")
    + (if |s| > 2 then [Digit(c % 64)] else "=")
  }

  /** base64_encode: each group of three bytes becomes four characters;
      a final group of one or two bytes is padded with '='. */
  function Encode(s: seq<byte>): (r: string)
    ensures |r| == 4 * ((|s| + 2) / 3)
    ensures forall i | 0 <= i < |r| :: IsDigit(r[i]) || r[i] == '='
    decreases |s|
  {
    if |s| == 0 then ""
    else if |s| <= 3 then EncodeGroup(s)
    else
      var head, tail := EncodeGroup(s[..3]), Encode(s[3..]);
      assert |s[3..]| + 2 == (|s| + 2) - 3;
      head + tail
  }

  /** Decodes one group of four characters; `last` says whether padding is allowed. */
  function DecodeGroup(q: string, last: bool): Option<seq<byte>>
    requires |q| == 4
  {
    if !(IsDigit(q[0]) && IsDigit(q[1])) then None
    else
      var a, b := DigitValue(q[0]), DigitValue(q[1]);
      if last && q[2] == '=' && q[3] == '=' then
        Some([(a * 4 + b / 16) as byte])
      else if !IsDigit(q[2]) then None
      else
        var c := DigitValue(q[2]);
        if last && q[3] == '=' then
          Some([(a * 4 + b / 16) as byte, (b % 16 * 16 + c / 4) as byte])
        else if !IsDigit(q[3]) then None
        else
          var d := DigitValue(q[3]);
          Some([(a * 4 + b / 16) as byte, (b % 16 * 16 + c / 4) as byte, (c % 4 * 64 + d) as byte])
  }

  /** The decoder of section 4 of RFC 4648: None for text that is not base64. */
  function Decode(t: string): Option<seq<byte>>
    decreases |t|
  {
    if |t| == 0 then Some([])
    else if |t| < 4 then None
    else
      match DecodeGroup(t[..4], |t| == 4)
      case None => None
      case Some(head) =>
        match Decode(t[4..])
        case None => None
        case Some(tail) => Some(head + tail)
  }

  /** Regrouping 8-bit values into 6-bit ones and back loses nothing. */
  lemma Regroup(a: int, b: int, c: int)
    requires 0 <= a < 256 && 0 <= b < 256 && 0 <= c < 256
    ensures a / 4 * 4 + (a % 4 * 16 + b / 16) / 16 == a
    ensures (a % 4 * 16 + b / 16) % 16 * 16 + (b % 16 * 4 + c / 64) / 4 == b
    ensures (b % 16 * 4 + c / 64) % 4 * 64 + c % 64 == c
  {
    assert (a % 4 * 16 + b / 16) / 16 == a % 4;
    assert (a % 4 * 16 + b / 16) % 16 == b / 16;
    assert (b % 16 * 4 + c / 64) / 4 == b % 16;
    assert (b % 16 * 4 + c / 64) % 4 == c / 64;
  }

  lemma DecodeEncodeGroup(s: seq<byte>, last: bool)
    requires 1 <= |s| <= 3
    requires |s| < 3 ==> last
    ensures DecodeGroup(EncodeGroup(s), last) == Some(s)
  {
    var a := s[0] as int;
    var b := if |s| > 1 then s[1] as int else 0;
    var c := if |s| > 2 then s[2] as int else 0;
    Regroup(a, b, c);
    var q := EncodeGroup(s);
    var x, y := a / 4, a % 4 * 16 + b / 16;
    assert q[0] == Digit(x) && q[1] == Digit(y);
    assert IsDigit(q[0]) && IsDigit(q[1]) && DigitValue(q[0]) == x && DigitValue(q[1]) == y;
    if |s| == 1 {
      DecodeOne(q, s, x, y);
    } else {
      var z := b % 16 * 4 + c / 64;
      assert q[2] == Digit(z);
      if |s| == 2 {
        DecodeTwo(q, s, x, y, z);
      } else {
        assert q[3] == Digit(c % 64);
        DecodeThree(q, s, x, y, z, c % 64, last);
      }
    }
  }

  lemma DecodeOne(q: string, s: seq<byte>, x: int, y: int)
    requires |q| == 4 && |s| == 1
    requires IsDigit(q[0]) && IsDigit(q[1]) && DigitValue(q[0]) == x && DigitValue(q[1]) == y
    requires q[2] == '=' && q[3] == '='
    requires x * 4 + y / 16 == s[0] as int
    ensures DecodeGroup(q, true) == Some(s)
  {
    assert s == [s[0]];
  }

  lemma DecodeTwo(q: string, s: seq<byte>, x: int, y: int, z: int)
    requires |q| == 4 && |s| == 2
    requires IsDigit(q[0]) && IsDigit(q[1]) && DigitValue(q[0]) == x && DigitValue(q[1]) == y
    requires 0 <= z < 64 && q[2] == Digit(z) && q[3] == '='
    requires x * 4 + y / 16 == s[0] as int
    requires y % 16 * 16 + z / 4 == s[1] as int
    ensures DecodeGroup(q, true) == Some(s)
  {
    assert q[2] != '=';
    assert s == [s[0], s[1]];
  }

  lemma DecodeThree(q: string, s: seq<byte>, x: int, y: int, z: int, w: int, last: bool)
    requires |q| == 4 && |s| == 3
    requires IsDigit(q[0]) && IsDigit(q[1]) && DigitValue(q[0]) == x && DigitValue(q[1]) == y
    requires 0 <= z < 64 && q[2] == Digit(z) && 0 <= w < 64 && q[3] == Digit(w)
    requires x * 4 + y / 16 == s[0] as int
    requires y % 16 * 16 + z / 4 == s[1] as int
    requires z % 4 * 64 + w == s[2] as int
    ensures DecodeGroup(q, last) == Some(s)
  {
    assert q[2] != '=' && q[3] != '=';
    assert s == [s[0], s[1], s[2]];
  }

  /** Decoding inverts base64_encode. */
  lemma {:induction false} DecodeEncode(s: seq<byte>)
    ensures Decode(Encode(s)) == Some(s)
    decreases |s|
  {
    var t := Encode(s);
    if |s| == 0 {
    } else if |s| <= 3 {
      assert t == EncodeGroup(s) && |t| == 4;
      assert t[..4] == t && t[4..] == "";
      DecodeEncodeGroup(s, true);
      assert Decode(t[4..]) == Some([]);
      assert s + [] == s;
    } else {
      assert t[..4] == EncodeGroup(s[..3]) && t[4..] == Encode(s[3..]);
      DecodeEncodeGroup(s[..3], |t| == 4);
      DecodeEncode(s[3..]);
      assert s == s[..3] + s[3..];
    }
  }
}
