/**
 * The base 64 encoding of section 4 of RFC 4648: every three bytes become four
 * characters of the alphabet `A-Z a-z 0-9 + /`, and a final group of one or two
 * bytes is padded with `=` to four characters.
 */
module Base64 {
  import opened Wrappers

  newtype byte = x: int | 0 <= x < 256

  /** The character of the alphabet (Table 1 of RFC 4648) for a 6-bit value. */
  function CharOf(v: int): (c: char)
    requires 0 <= v < 64
    ensures c != '='
  {
    if v < 26 then ('A' as int + v) as char
    else if v < 52 then ('a' as int + (v - 26)) as char
    else if v < 62 then ('0' as int + (v - 52)) as char
    else if v == 62 then '+'
    else '/'
  }

  /** The 6-bit value of a character of the alphabet; None for any other character. */
  function ValueOf(c: char): (r: Option<int>)
    ensures r.Some? ==> 0 <= r.value < 64 && CharOf(r.value) == c
  {
    if 'A' <= c <= 'Z' then Some(c as int - 'A' as int)
    else if 'a' <= c <= 'z' then Some(c as int - 'a' as int + 26)
    else if '0' <= c <= '9' then Some(c as int - '0' as int + 52)
    else if c == '+' then Some(62)
    else if c == '/' then Some(63)
    else None
  }

  /** Every value has its character, and reading it back gives the value. */
  lemma ValueOfCharOf(v: int)
    requires 0 <= v < 64
    ensures ValueOf(CharOf(v)) == Some(v)
  {
  }

  /** A full group: the 24 bits of three bytes as four 6-bit values. */
  function EncodeGroup(b0: byte, b1: byte, b2: byte): (r: string)
    ensures |r| == 4
  {
    var n0 := b0 as int;
    var n1 := b1 as int;
    var n2 := b2 as int;
    [CharOf(n0 / 4), CharOf(n0 % 4 * 16 + n1 / 16), CharOf(n1 % 16 * 4 + n2 / 64), CharOf(n2 % 64)]
  }

  /** The final group of one byte: two characters and `==`. */
  function EncodeOne(b0: byte): (r: string)
    ensures |r| == 4
  {
    var n0 := b0 as int;
    [CharOf(n0 / 4), CharOf(n0 % 4 * 16), '=', '=']
  }

  /** The final group of two bytes: three characters and `=`. */
  function EncodeTwo(b0: byte, b1: byte): (r: string)
    ensures |r| == 4
  {
    var n0 := b0 as int;
    var n1 := b1 as int;
    [CharOf(n0 / 4), CharOf(n0 % 4 * 16 + n1 / 16), CharOf(n1 % 16 * 4), '=']
  }

  /** `Buffer.from(bytes).toString('base64')`. */
  function Encode(bytes: seq<byte>): (r: string)
    ensures |r| == (|bytes| + 2) / 3 * 4
  {
    if |bytes| == 0 then ""
    else if |bytes| == 1 then EncodeOne(bytes[0])
    else if |bytes| == 2 then EncodeTwo(bytes[0], bytes[1])
    else EncodeGroup(bytes[0], bytes[1], bytes[2]) + Encode(bytes[3..])
  }

  /** Four characters without padding back to three bytes. */
  function DecodeGroup(q: string): (r: Option<seq<byte>>)
    requires |q| == 4
    ensures r.Some? <==> forall i :: 0 <= i < 4 ==> ValueOf(q[i]).Some?
    ensures r.Some? ==> |r.value| == 3
  {
    match (ValueOf(q[0]), ValueOf(q[1]), ValueOf(q[2]), ValueOf(q[3]))
    case (Some(v0), Some(v1), Some(v2), Some(v3)) =>
      Some([(v0 * 4 + v1 / 16) as byte, (v1 % 16 * 16 + v2 / 4) as byte, (v2 % 4 * 64 + v3) as byte])
    case _ => None
  }

  /** A last group, which may end in `==` (one byte) or `=` (two bytes). */
  function DecodeLast(q: string): (r: Option<seq<byte>>)
    requires |q| == 4
    ensures r.Some? ==> 1 <= |r.value| <= 3
    ensures r.Some? ==> ValueOf(q[0]).Some? && ValueOf(q[1]).Some?
  {
    if q[2] == '=' && q[3] == '=' then
      match (ValueOf(q[0]), ValueOf(q[1]))
      case (Some(v0), Some(v1)) => Some([(v0 * 4 + v1 / 16) as byte])
      case _ => None
    else if q[3] == '=' then
      match (ValueOf(q[0]), ValueOf(q[1]), ValueOf(q[2]))
      case (Some(v0), Some(v1), Some(v2)) => Some([(v0 * 4 + v1 / 16) as byte, (v1 % 16 * 16 + v2 / 4) as byte])
      case _ => None
    else DecodeGroup(q)
  }

  /**
   * Decoding of padded text in the alphabet of section 4; any other text is
   * rejected (None).
   */
  function Decode(s: string): (r: Option<seq<byte>>)
    ensures r.Some? ==> |s| % 4 == 0 && |s| / 4 * 3 - 2 <= |r.value| <= |s| / 4 * 3
    decreases |s|
  {
    if |s| == 0 then Some([])
    else if |s| < 4 then None
    else if |s| == 4 then DecodeLast(s)
    else
      match (DecodeGroup(s[..4]), Decode(s[4..]))
      case (Some(head), Some(tail)) => Some(head + tail)
      case _ => None
  }

  lemma GroupRoundTrip(b0: byte, b1: byte, b2: byte)
    ensures DecodeGroup(EncodeGroup(b0, b1, b2)) == Some([b0, b1, b2])
  {
    var n0, n1, n2 := b0 as int, b1 as int, b2 as int;
    var v0, v1, v2, v3 := n0 / 4, n0 % 4 * 16 + n1 / 16, n1 % 16 * 4 + n2 / 64, n2 % 64;
    ValueOfCharOf(v0);
    ValueOfCharOf(v1);
    ValueOfCharOf(v2);
    ValueOfCharOf(v3);
    assert v1 / 16 == n0 % 4 && v1 % 16 == n1 / 16;
    assert v2 / 4 == n1 % 16 && v2 % 4 == n2 / 64;
  }

  lemma OneRoundTrip(b0: byte)
    ensures Decode(Encode([b0])) == Some([b0])
  {
    var n0 := b0 as int;
    ValueOfCharOf(n0 / 4);
    ValueOfCharOf(n0 % 4 * 16);
    assert Encode([b0]) == EncodeOne(b0);
  }

  lemma TwoRoundTrip(b0: byte, b1: byte)
    ensures Decode(Encode([b0, b1])) == Some([b0, b1])
  {
    var n0, n1 := b0 as int, b1 as int;
    var v1, v2 := n0 % 4 * 16 + n1 / 16, n1 % 16 * 4;
    ValueOfCharOf(n0 / 4);
    ValueOfCharOf(v1);
    ValueOfCharOf(v2);
    assert v1 / 16 == n0 % 4 && v1 % 16 == n1 / 16;
    assert v2 / 4 == n1 % 16;
    assert Encode([b0, b1]) == EncodeTwo(b0, b1);
  }

  lemma ThreeRoundTrip(b0: byte, b1: byte, b2: byte)
    ensures Decode(Encode([b0, b1, b2])) == Some([b0, b1, b2])
  {
    GroupRoundTrip(b0, b1, b2);
    assert [b0, b1, b2][3..] == [];
    assert Encode([b0, b1, b2]) == EncodeGroup(b0, b1, b2);
  }

  /** A string of more than four characters decodes as its first group followed by the rest. */
  lemma DecodeSplit(head: string, rest: string)
    requires |head| == 4 && |rest| > 0
    ensures Decode(head + rest)
         == match (DecodeGroup(head), Decode(rest))
            case (Some(h), Some(t)) => Some(h + t)
            case _ => None
  {
    assert (head + rest)[..4] == head && (head + rest)[4..] == rest;
  }

  lemma Regroup(s: seq<byte>)
    requires |s| >= 3
    ensures s == [s[0], s[1], s[2]] + s[3..]
  {
  }

  /** A full first group followed by text that round-trips round-trips as a whole. */
  lemma GroupThenRest(bytes: seq<byte>)
    requires |bytes| > 3
    requires Decode(Encode(bytes[3..])) == Some(bytes[3..])
    ensures Decode(Encode(bytes)) == Some(bytes)
  {
    var head := EncodeGroup(bytes[0], bytes[1], bytes[2]);
    var rest := Encode(bytes[3..]);
    assert Encode(bytes) == head + rest;
    GroupRoundTrip(bytes[0], bytes[1], bytes[2]);
    DecodeSplit(head, rest);
    assert Decode(head + rest) == Some([bytes[0], bytes[1], bytes[2]] + bytes[3..]);
    Regroup(bytes);
  }

  /** Decoding what was encoded gives back the bytes: the encoding is injective. */
  lemma {:induction false} RoundTrip(bytes: seq<byte>)
    ensures Decode(Encode(bytes)) == Some(bytes)
    decreases |bytes|
  {
    if |bytes| == 1 {
      OneRoundTrip(bytes[0]);
      assert bytes == [bytes[0]];
    } else if |bytes| == 2 {
      TwoRoundTrip(bytes[0], bytes[1]);
      assert bytes == [bytes[0], bytes[1]];
    } else if |bytes| == 3 {
      ThreeRoundTrip(bytes[0], bytes[1], bytes[2]);
      assert bytes == [bytes[0], bytes[1], bytes[2]];
    } else if |bytes| > 3 {
      RoundTrip(bytes[3..]);
      GroupThenRest(bytes);
    }
  }
}
