/**
 * The Base64 encoding of section 4 of RFC 4648, as java.util.Base64.getEncoder() produces it:
 * the standard alphabet of Table 1, '=' padding, no line breaks. A strict decoder is its
 * inverse: it accepts exactly the strings the encoder produces.
 */
module Base64 {
  import opened Wrappers
  import opened Octets

  /** The character for a 6-bit group value, as in Table 1 of RFC 4648. */
  function Sextet(n: nat): (c: char)
    requires n < 64
  {
    if n < 26 then ('A' as int + n) as char
    else if n < 52 then ('a' as int + n - 26) as char
    else if n < 62 then ('0' as int + n - 52) as char
    else if n == 62 then '+'
    else '/'
  }

  /** The 6-bit group value of an alphabet character, or -1 for any other character (the pad included). */
  function SextetValue(c: char): (v: int)
    ensures -1 <= v < 64
    ensures v >= 0 ==> Sextet(v) == c
  {
    if 'A' <= c <= 'Z' then c as int - 'A' as int
    else if 'a' <= c <= 'z' then c as int - 'a' as int + 26
    else if '0' <= c <= '9' then c as int - '0' as int + 52
    else if c == '+' then 62
    else if c == '/' then 63
    else -1
  }

  lemma SextetValueOfSextet(n: nat)
    requires n < 64
    ensures SextetValue(Sextet(n)) == n
  {
  }

  predicate InAlphabet(c: char) {
    SextetValue(c) >= 0
  }

  /** The four characters for three octets: their 24 bits read as four 6-bit groups, most significant first. */
  function EncodeQuantum(b0: byte, b1: byte, b2: byte): (r: string)
    ensures |r| == 4
  {
    [Sextet(b0 / 4), Sextet((b0 % 4) * 16 + b1 / 16), Sextet((b1 % 16) * 4 + b2 / 64), Sextet(b2 % 64)]
  }

  /** The three octets carried by four 6-bit groups. */
  function DecodeQuantum(a: nat, b: nat, c: nat, d: nat): (r: seq<byte>)
    requires a < 64 && b < 64 && c < 64 && d < 64
    ensures |r| == 3
  {
    [a * 4 + b / 16, (b % 16) * 16 + c / 4, (c % 4) * 64 + d]
  }

  /**
   * Each group of three octets becomes four characters. A final group of one or two octets is
   * completed with zero bits, and the characters that carry only those bits are replaced by '='.
   */
  function Encode(b: seq<byte>): (r: string)
    ensures |r| == 4 * ((|b| + 2) / 3)
    decreases |b|
  {
    if |b| == 0 then []
    else if |b| == 1 then EncodeQuantum(b[0], 0, 0)[..2] + "=="
    else if |b| == 2 then EncodeQuantum(b[0], b[1], 0)[..3] + "="
    else EncodeQuantum(b[0], b[1], b[2]) + Encode(b[3..])
  }

  /** Decodes four characters at a time; padding is accepted only in the last group, and its unused bits must be zero. */
  function Decode(s: string): (r: Option<seq<byte>>)
    decreases |s|
  {
    if |s| == 0 then Some([])
    else if |s| < 4 then None
    else
      var a, b, c, d := SextetValue(s[0]), SextetValue(s[1]), SextetValue(s[2]), SextetValue(s[3]);
      if a < 0 || b < 0 then None
      else if |s| == 4 && s[2] == '=' && s[3] == '=' then
        if b % 16 == 0 then Some(DecodeQuantum(a, b, 0, 0)[..1]) else None
      else if c < 0 then None
      else if |s| == 4 && s[3] == '=' then
        if c % 4 == 0 then Some(DecodeQuantum(a, b, c, 0)[..2]) else None
      else if d < 0 then None
      else match Decode(s[4..])
        case None => None
        case Some(rest) => Some(DecodeQuantum(a, b, c, d) + rest)
  }

  /** The output contains only alphabet characters and the pad. */
  lemma {:induction false} EncodeAlphabet(b: seq<byte>)
    ensures forall i :: 0 <= i < |Encode(b)| ==> InAlphabet(Encode(b)[i]) || Encode(b)[i] == '='
    decreases |b|
  {
    if |b| >= 3 {
      EncodeAlphabet(b[3..]);
    }
  }

  /** A value below 16 * m read as m-sized high part and low part, for the three widths the groups use. */
  lemma Pack(hi: int, lo: int, m: int)
    requires m == 4 || m == 16 || m == 64
    requires 0 <= hi && 0 <= lo < m
    ensures (hi * m + lo) / m == hi && (hi * m + lo) % m == lo
  {
    if m == 4 {
      assert (hi * 4 + lo) / 4 == hi;
    } else if m == 16 {
      assert (hi * 16 + lo) / 16 == hi;
    } else {
      assert (hi * 64 + lo) / 64 == hi;
    }
  }

  lemma Unpack(x: int, m: int)
    requires m == 4 || m == 16 || m == 64
    requires 0 <= x
    ensures (x / m) * m + x % m == x
  {
  }

  /** The four 6-bit groups of three octets. */
  lemma QuantumGroups(b0: byte, b1: byte, b2: byte)
    ensures b0 / 4 < 64 && (b0 % 4) * 16 + b1 / 16 < 64 && (b1 % 16) * 4 + b2 / 64 < 64 && b2 % 64 < 64
    ensures ((b0 % 4) * 16 + b1 / 16) / 16 == b0 % 4 && ((b0 % 4) * 16 + b1 / 16) % 16 == b1 / 16
    ensures ((b1 % 16) * 4 + b2 / 64) / 4 == b1 % 16 && ((b1 % 16) * 4 + b2 / 64) % 4 == b2 / 64
  {
    assert b1 / 16 < 16 && b2 / 64 < 4;
    Pack(b0 % 4, b1 / 16, 16);
    Pack(b1 % 16, b2 / 64, 4);
  }

  /** Three octets survive encoding and decoding. */
  lemma QuantumDecodeEncode(b0: byte, b1: byte, b2: byte)
    ensures var q := EncodeQuantum(b0, b1, b2);
      SextetValue(q[0]) == b0 / 4 && SextetValue(q[1]) == (b0 % 4) * 16 + b1 / 16 &&
      SextetValue(q[2]) == (b1 % 16) * 4 + b2 / 64 && SextetValue(q[3]) == b2 % 64
    ensures var q := EncodeQuantum(b0, b1, b2);
      SextetValue(q[0]) >= 0 && SextetValue(q[1]) >= 0 && SextetValue(q[2]) >= 0 && SextetValue(q[3]) >= 0 &&
      DecodeQuantum(SextetValue(q[0]), SextetValue(q[1]), SextetValue(q[2]), SextetValue(q[3])) == [b0, b1, b2]
  {
    QuantumGroups(b0, b1, b2);
    var a, b, c, d := b0 / 4, (b0 % 4) * 16 + b1 / 16, (b1 % 16) * 4 + b2 / 64, b2 % 64;
    SextetValueOfSextet(a);
    SextetValueOfSextet(b);
    SextetValueOfSextet(c);
    SextetValueOfSextet(d);
    Unpack(b0, 4);
    Unpack(b1, 16);
    Unpack(b2, 64);
  }

  /** Four 6-bit groups survive decoding and encoding. */
  lemma QuantumEncodeDecode(a: nat, b: nat, c: nat, d: nat)
    requires a < 64 && b < 64 && c < 64 && d < 64
    ensures var o := DecodeQuantum(a, b, c, d);
      EncodeQuantum(o[0], o[1], o[2]) == [Sextet(a), Sextet(b), Sextet(c), Sextet(d)]
  {
    var o := DecodeQuantum(a, b, c, d);
    assert o[0] / 4 == a;
    assert (o[0] % 4) * 16 + o[1] / 16 == b;
    assert (o[1] % 16) * 4 + o[2] / 64 == c;
    assert o[2] % 64 == d;
  }

  lemma DecodeEncodeOne(b0: byte)
    ensures Decode(Encode([b0])) == Some([b0])
  {
    QuantumDecodeEncode(b0, 0, 0);
    var q := EncodeQuantum(b0, 0, 0);
    var s := Encode([b0]);
    assert s == q[..2] + "==";
    assert s == [q[0], q[1], '=', '='];
    var a, b := b0 / 4, (b0 % 4) * 16;
    assert SextetValue(s[0]) == a && SextetValue(s[1]) == b;
    assert b % 16 == 0;
    assert DecodeQuantum(a, b, 0, 0) == [b0, 0, 0];
    assert Decode(s) == Some(DecodeQuantum(a, b, 0, 0)[..1]);
    assert DecodeQuantum(a, b, 0, 0)[..1] == [b0];
  }

  lemma DecodeEncodeTwo(b0: byte, b1: byte)
    ensures Decode(Encode([b0, b1])) == Some([b0, b1])
  {
    QuantumDecodeEncode(b0, b1, 0);
    var q := EncodeQuantum(b0, b1, 0);
    var s := Encode([b0, b1]);
    assert s == q[..3] + "=";
    assert s == [q[0], q[1], q[2], '='];
    var a, b, c := b0 / 4, (b0 % 4) * 16 + b1 / 16, (b1 % 16) * 4;
    assert SextetValue(s[0]) == a && SextetValue(s[1]) == b && SextetValue(s[2]) == c;
    assert c % 4 == 0;
    assert DecodeQuantum(a, b, c, 0) == [b0, b1, 0];
    assert Decode(s) == Some(DecodeQuantum(a, b, c, 0)[..2]);
    assert DecodeQuantum(a, b, c, 0)[..2] == [b0, b1];
  }

  lemma DecodeEncodeFull(b0: byte, b1: byte, b2: byte, rest: seq<byte>)
    requires Decode(Encode(rest)) == Some(rest)
    ensures Decode(Encode([b0, b1, b2] + rest)) == Some([b0, b1, b2] + rest)
  {
    var b := [b0, b1, b2] + rest;
    assert b[3..] == rest;
    var q := EncodeQuantum(b0, b1, b2);
    var s := q + Encode(rest);
    assert Encode(b) == s;
    QuantumDecodeEncode(b0, b1, b2);
    assert s[..4] == q && s[4..] == Encode(rest);
  }

  /** Decoding undoes encoding. */
  lemma {:induction false} DecodeEncode(b: seq<byte>)
    ensures Decode(Encode(b)) == Some(b)
    decreases |b|
  {
    if |b| == 1 {
      assert b == [b[0]];
      DecodeEncodeOne(b[0]);
    } else if |b| == 2 {
      assert b == [b[0], b[1]];
      DecodeEncodeTwo(b[0], b[1]);
    } else if |b| >= 3 {
      assert b == [b[0], b[1], b[2]] + b[3..];
      DecodeEncode(b[3..]);
      DecodeEncodeFull(b[0], b[1], b[2], b[3..]);
    }
  }

  lemma EncodeDecodeOne(s: string)
    requires |s| == 4 && s[2] == '=' && s[3] == '=' && Decode(s).Some?
    ensures Encode(Decode(s).value) == s
  {
    var a, b := SextetValue(s[0]), SextetValue(s[1]);
    QuantumEncodeDecode(a, b, 0, 0);
    var o := DecodeQuantum(a, b, 0, 0);
    assert Decode(s).value == [o[0]];
    assert b % 16 == 0;
    assert o[1] == 0 && o[2] == 0;
  }

  lemma EncodeDecodeTwo(s: string)
    requires |s| == 4 && s[2] != '=' && s[3] == '=' && Decode(s).Some?
    ensures Encode(Decode(s).value) == s
  {
    var a, b, c := SextetValue(s[0]), SextetValue(s[1]), SextetValue(s[2]);
    QuantumEncodeDecode(a, b, c, 0);
    var o := DecodeQuantum(a, b, c, 0);
    assert Decode(s).value == [o[0], o[1]];
    assert c % 4 == 0;
    assert o[2] == 0;
  }

  /** A decoded full group: four alphabet characters, followed by text that decodes on its own. */
  lemma DecodeUnfoldFull(s: string)
    requires |s| >= 4 && s[3] != '=' && Decode(s).Some?
    ensures SextetValue(s[0]) >= 0 && SextetValue(s[1]) >= 0 && SextetValue(s[2]) >= 0 && SextetValue(s[3]) >= 0
    ensures Decode(s[4..]).Some?
    ensures Decode(s).value ==
              DecodeQuantum(SextetValue(s[0]), SextetValue(s[1]), SextetValue(s[2]), SextetValue(s[3]))
              + Decode(s[4..]).value
  {
  }

  lemma EncodeDecodeFull(a: nat, b: nat, c: nat, d: nat, rest: seq<byte>)
    requires a < 64 && b < 64 && c < 64 && d < 64
    ensures Encode(DecodeQuantum(a, b, c, d) + rest) == [Sextet(a), Sextet(b), Sextet(c), Sextet(d)] + Encode(rest)
  {
    var o := DecodeQuantum(a, b, c, d);
    var r := o + rest;
    assert r[..3] == o && r[3..] == rest;
    assert Encode(r) == EncodeQuantum(o[0], o[1], o[2]) + Encode(rest);
    QuantumEncodeDecode(a, b, c, d);
  }

  /** One full group of alphabet characters in front of the encoding of rest is the encoding of its octets and rest. */
  lemma EncodeDecodeStep(s: string, rest: seq<byte>)
    requires |s| >= 4
    requires SextetValue(s[0]) >= 0 && SextetValue(s[1]) >= 0 && SextetValue(s[2]) >= 0 && SextetValue(s[3]) >= 0
    requires Encode(rest) == s[4..]
    ensures Encode(DecodeQuantum(SextetValue(s[0]), SextetValue(s[1]), SextetValue(s[2]), SextetValue(s[3])) + rest) == s
  {
    var a, b, c, d := SextetValue(s[0]), SextetValue(s[1]), SextetValue(s[2]), SextetValue(s[3]);
    EncodeDecodeFull(a, b, c, d, rest);
    assert [Sextet(a), Sextet(b), Sextet(c), Sextet(d)] == s[..4];
    assert s == s[..4] + s[4..];
  }

  /** The decoder accepts only what the encoder produces: a decoded string is the encoding of its result. */
  lemma {:induction false} EncodeDecode(s: string)
    requires Decode(s).Some?
    ensures Encode(Decode(s).value) == s
    decreases |s|
  {
    if |s| > 0 {
      if |s| == 4 && s[2] == '=' && s[3] == '=' {
        EncodeDecodeOne(s);
      } else if |s| == 4 && s[3] == '=' {
        EncodeDecodeTwo(s);
      } else {
        assert s[3] != '=';
        DecodeUnfoldFull(s);
        EncodeDecode(s[4..]);
        EncodeDecodeStep(s, Decode(s[4..]).value);
      }
    }
  }

  /** Decoding is injective on the strings it accepts, and the encoding is exactly what it accepts. */
  lemma DecodeIff(s: string, b: seq<byte>)
    ensures Decode(s) == Some(b) <==> s == Encode(b)
  {
    if s == Encode(b) {
      DecodeEncode(b);
    }
    if Decode(s) == Some(b) {
      EncodeDecode(s);
    }
  }
}
