/** The base64 encoding of section 4 of RFC 4648 (standard alphabet, '='
    padding), as Node's `Buffer` uses it for `toString('base64')` and for
    `new Buffer(text, 'base64')` on canonical input. */
module Base64 {
  import opened Common

  /** The value carried by one base64 digit. */
  type Sextet = d: int | 0 <= d < 64

  const Pad: char := '='

  /** The alphabet of Table 1 of RFC 4648: A-Z, a-z, 0-9, '+', '/'. */
  function Digit(d: Sextet): (c: char)
    ensures c != Pad
  {
    if d < 26 then ('A' as int + d) as char
    else if d < 52 then ('a' as int + (d - 26)) as char
    else if d < 62 then ('0' as int + (d - 52)) as char
    else if d == 62 then '+'
    else '/'
  }

  /** The value of an alphabet character; `None` for anything else, padding included. */
  function DigitValue(c: char): (r: Option<Sextet>)
    ensures r.Some? ==> Digit(r.value) == c
  {
    if 'A' <= c <= 'Z' then Some(c as int - 'A' as int)
    else if 'a' <= c <= 'z' then Some(c as int - 'a' as int + 26)
    else if '0' <= c <= '9' then Some(c as int - '0' as int + 52)
    else if c == '+' then Some(62)
    else if c == '/' then Some(63)
    else None
  }

  lemma DigitValueOfDigit(d: Sextet)
    ensures DigitValue(Digit(d)) == Some(d)
  {
  }

  /** Three octets as four digits (section 4 of RFC 4648). */
  function EncodeGroup(b0: Byte, b1: Byte, b2: Byte): string
  {
    [Digit(b0 / 4), Digit(b0 % 4 * 16 + b1 / 16), Digit(b1 % 16 * 4 + b2 / 64), Digit(b2 % 64)]
  }

  /** Every three octets become four digits; a final one or two octets are
      zero-filled and padded with "==" or "=" respectively. */
  function Encode(b: seq<Byte>): (s: string)
    ensures |s| == (|b| + 2) / 3 * 4
    decreases |b|
  {
    if |b| == 0 then []
    else if |b| == 1 then [Digit(b[0] / 4), Digit(b[0] % 4 * 16), Pad, Pad]
    else if |b| == 2 then [Digit(b[0] / 4), Digit(b[0] % 4 * 16 + b[1] / 16), Digit(b[1] % 16 * 4), Pad]
    else EncodeGroup(b[0], b[1], b[2]) + Encode(b[3..])
  }

  /** Four digits without padding as three octets. */
  function DecodeGroup(q: string): (r: Option<seq<Byte>>)
    requires |q| == 4
    ensures r.Some? ==> |r.value| == 3
  {
    match (DigitValue(q[0]), DigitValue(q[1]), DigitValue(q[2]), DigitValue(q[3]))
    case (Some(d0), Some(d1), Some(d2), Some(d3)) =>
      var v0, v1, v2 := d0 as int * 4 + d1 / 16, d1 as int % 16 * 16 + d2 / 4, d2 as int % 4 * 64 + d3;
      Some([v0, v1, v2])
    case _ => None
  }

  /** The last quantum, which may carry one or two padding characters; the
      bits that padding discards must be zero (canonical encoding). */
  function DecodeFinal(q: string): (r: Option<seq<Byte>>)
    requires |q| == 4
    ensures r.Some? ==> 1 <= |r.value| <= 3
  {
    if q[2] == Pad && q[3] == Pad then
      match (DigitValue(q[0]), DigitValue(q[1]))
      case (Some(d0), Some(d1)) =>
        var v0 := d0 as int * 4 + d1 / 16;
        if d1 % 16 == 0 then Some([v0]) else None
      case _ => None
    else if q[3] == Pad then
      match (DigitValue(q[0]), DigitValue(q[1]), DigitValue(q[2]))
      case (Some(d0), Some(d1), Some(d2)) =>
        var v0, v1 := d0 as int * 4 + d1 / 16, d1 as int % 16 * 16 + d2 / 4;
        if d2 % 4 == 0 then Some([v0, v1]) else None
      case _ => None
    else DecodeGroup(q)
  }

  /** Strict decoding of canonical base64: `None` for any text that `Encode`
      cannot produce in this position (wrong length, foreign character,
      padding before the end, non-zero discarded bits). */
  function Decode(s: string): (r: Option<seq<Byte>>)
    ensures r.Some? ==> |r.value| <= |s| / 4 * 3
    decreases |s|
  {
    if |s| == 0 then Some([])
    else if |s| < 4 then None
    else if |s| == 4 then DecodeFinal(s)
    else
      match (DecodeGroup(s[..4]), Decode(s[4..]))
      case (Some(h), Some(t)) => Some(h + t)
      case _ => None
  }

  /** Regrouping the bits of three octets into four sextets and back. */
  lemma GroupArithmetic(b0: Byte, b1: Byte, b2: Byte)
    ensures b0 / 4 * 4 + (b0 % 4 * 16 + b1 / 16) / 16 == b0
    ensures (b0 % 4 * 16 + b1 / 16) % 16 * 16 + (b1 % 16 * 4 + b2 / 64) / 4 == b1
    ensures (b1 % 16 * 4 + b2 / 64) % 4 * 64 + b2 % 64 == b2
  {
    var x, y := b0 % 4, b1 / 16;
    assert (x * 16 + y) / 16 == x && (x * 16 + y) % 16 == y;
    var z, w := b1 % 16, b2 / 64;
    assert (z * 4 + w) / 4 == z && (z * 4 + w) % 4 == w;
  }

  lemma GroupRoundTrip(b0: Byte, b1: Byte, b2: Byte)
    ensures DecodeGroup(EncodeGroup(b0, b1, b2)) == Some([b0, b1, b2])
  {
    var d0, d1, d2, d3 := b0 / 4, b0 % 4 * 16 + b1 / 16, b1 % 16 * 4 + b2 / 64, b2 % 64;
    var q := EncodeGroup(b0, b1, b2);
    DigitValueOfDigit(d0);
    DigitValueOfDigit(d1);
    DigitValueOfDigit(d2);
    DigitValueOfDigit(d3);
    assert DigitValue(q[0]) == Some(d0) && DigitValue(q[1]) == Some(d1);
    assert DigitValue(q[2]) == Some(d2) && DigitValue(q[3]) == Some(d3);
    GroupArithmetic(b0, b1, b2);
  }

  lemma FinalOneRoundTrip(b0: Byte)
    ensures Decode(Encode([b0])) == Some([b0])
  {
    var s := Encode([b0]);
    var d0, d1 := b0 / 4, b0 % 4 * 16;
    DigitValueOfDigit(d0);
    DigitValueOfDigit(d1);
    assert DigitValue(s[0]) == Some(d0) && DigitValue(s[1]) == Some(d1);
    assert d1 % 16 == 0 && d0 * 4 + d1 / 16 == b0;
  }

  lemma FinalTwoRoundTrip(b0: Byte, b1: Byte)
    ensures Decode(Encode([b0, b1])) == Some([b0, b1])
  {
    var s := Encode([b0, b1]);
    var d0, d1, d2 := b0 / 4, b0 % 4 * 16 + b1 / 16, b1 % 16 * 4;
    DigitValueOfDigit(d0);
    DigitValueOfDigit(d1);
    DigitValueOfDigit(d2);
    assert DigitValue(s[0]) == Some(d0) && DigitValue(s[1]) == Some(d1) && DigitValue(s[2]) == Some(d2);
    GroupArithmetic(b0, b1, 0);
    assert d2 % 4 == 0 && d2 / 4 == b1 % 16;
    assert s[2] != Pad && s[3] == Pad;
  }

  lemma SingleGroupRoundTrip(b0: Byte, b1: Byte, b2: Byte)
    ensures Decode(Encode([b0, b1, b2])) == Some([b0, b1, b2])
  {
    var s := Encode([b0, b1, b2]);
    assert [b0, b1, b2][3..] == [];
    assert s == EncodeGroup(b0, b1, b2);
    GroupRoundTrip(b0, b1, b2);
    assert s[3] != Pad && DecodeFinal(s) == DecodeGroup(s);
  }

  /** A full leading group decodes on its own, ahead of the rest. */
  lemma DecodeLeadingGroup(q: string, rest: string, h: seq<Byte>, t: seq<Byte>)
    requires |q| == 4 && |rest| > 0
    requires DecodeGroup(q) == Some(h) && Decode(rest) == Some(t)
    ensures Decode(q + rest) == Some(h + t)
  {
    assert (q + rest)[..4] == q && (q + rest)[4..] == rest;
  }

  /** Decoding undoes encoding, for every octet sequence. */
  lemma {:induction false} DecodeEncode(b: seq<Byte>)
    ensures Decode(Encode(b)) == Some(b)
    decreases |b|
  {
    if |b| == 1 {
      assert b == [b[0]];
      FinalOneRoundTrip(b[0]);
    } else if |b| == 2 {
      assert b == [b[0], b[1]];
      FinalTwoRoundTrip(b[0], b[1]);
    } else if |b| == 3 {
      assert b == [b[0], b[1], b[2]];
      SingleGroupRoundTrip(b[0], b[1], b[2]);
    } else if |b| > 3 {
      DecodeEncode(b[3..]);
      EncodeSplit(b);
      DecodeEncodeStep(b);
    }
  }

  lemma EncodeNonEmpty(b: seq<Byte>)
    requires |b| > 0
    ensures |Encode(b)| >= 4
  {
  }

  lemma EncodeSplit(b: seq<Byte>)
    requires |b| > 3
    ensures Encode(b) == EncodeGroup(b[0], b[1], b[2]) + Encode(b[3..])
  {
  }

  lemma DecodeEncodeStep(b: seq<Byte>)
    requires |b| > 3 && Decode(Encode(b[3..])) == Some(b[3..])
    ensures Decode(EncodeGroup(b[0], b[1], b[2]) + Encode(b[3..])) == Some(b)
  {
    var q, rest := EncodeGroup(b[0], b[1], b[2]), Encode(b[3..]);
    assert |rest| > 0 by {
      EncodeNonEmpty(b[3..]);
    }
    GroupRoundTrip(b[0], b[1], b[2]);
    DecodeLeadingGroup(q, rest, [b[0], b[1], b[2]], b[3..]);
    assert b == [b[0], b[1], b[2]] + b[3..];
  }

  /** Undoing the bit regrouping of `DecodeGroup`: the digit values come back
      from the three octets they make. */
  lemma SextetArithmetic(d0: Sextet, d1: Sextet, d2: Sextet, d3: Sextet)
    ensures var v0, v1, v2 := d0 * 4 + d1 / 16, d1 % 16 * 16 + d2 / 4, d2 % 4 * 64 + d3;
      && v0 / 4 == d0 && v0 % 4 * 16 + v1 / 16 == d1
      && v1 % 16 * 4 + v2 / 64 == d2 && v2 % 64 == d3
  {
  }

  /** A quantum that decodes is the encoding of what it decodes to. */
  lemma GroupInverse(q: string)
    requires |q| == 4 && DecodeGroup(q).Some?
    ensures var v := DecodeGroup(q).value; EncodeGroup(v[0], v[1], v[2]) == q
  {
    var d0, d1, d2, d3 := DigitValue(q[0]).value, DigitValue(q[1]).value, DigitValue(q[2]).value, DigitValue(q[3]).value;
    SextetArithmetic(d0, d1, d2, d3);
  }

  /** A final quantum that decodes is the encoding of what it decodes to. */
  lemma FinalInverse(q: string)
    requires |q| == 4 && DecodeFinal(q).Some?
    ensures Encode(DecodeFinal(q).value) == q
  {
    var v := DecodeFinal(q).value;
    if q[2] == Pad && q[3] == Pad {
      var d0, d1 := DigitValue(q[0]).value, DigitValue(q[1]).value;
      SextetArithmetic(d0, d1, 0, 0);
    } else if q[3] == Pad {
      var d0, d1, d2 := DigitValue(q[0]).value, DigitValue(q[1]).value, DigitValue(q[2]).value;
      SextetArithmetic(d0, d1, d2, 0);
    } else {
      GroupInverse(q);
      EncodeAfterGroup(v, []);
      assert v + [] == v;
    }
  }

  /** Encoding three octets and more is their quantum followed by the rest's encoding. */
  lemma EncodeAfterGroup(h: seq<Byte>, t: seq<Byte>)
    requires |h| == 3
    ensures Encode(h + t) == EncodeGroup(h[0], h[1], h[2]) + Encode(t)
  {
    var b := h + t;
    assert b[0] == h[0] && b[1] == h[1] && b[2] == h[2] && b[3..] == t;
  }

  /** Encoding undoes decoding: the decoder accepts only the text `Encode`
      produces, so the two are inverse bijections. */
  lemma {:induction false} EncodeDecode(s: string)
    requires Decode(s).Some?
    ensures Encode(Decode(s).value) == s
    decreases |s|
  {
    if |s| == 4 {
      FinalInverse(s);
    } else if |s| > 4 {
      var h, t := DecodeGroup(s[..4]).value, Decode(s[4..]).value;
      EncodeDecode(s[4..]);
      GroupInverse(s[..4]);
      EncodeAfterGroup(h, t);
      assert s == s[..4] + s[4..];
    }
  }
}
