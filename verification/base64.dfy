/** Base64 with the standard alphabet and `=` padding (section 4 of
    RFC 4648), as Go's `base64.StdEncoding` encodes and decodes it. The
    decoder keeps Go's behaviour on malformed input: it returns the bytes of
    the quanta it decoded before the first bad one and drops the rest. */
module Base64 {
  import opened Outcomes
  import Strings

  type byte = x: int | 0 <= x < 256
  type Sextet = x: int | 0 <= x < 64

  /** The character that encodes a 6-bit value. */
  function CharOf(v: Sextet): (c: char)
  {
    if v < 26 then ('A' as int + v) as char
    else if v < 52 then ('a' as int + (v - 26)) as char
    else if v < 62 then ('0' as int + (v - 52)) as char
    else if v == 62 then '+'
    else '/'
  }

  /** The 6-bit value a character encodes, if it belongs to the alphabet. */
  function ValueOf(c: char): (v: Option<Sextet>)
  {
    if 'A' <= c <= 'Z' then Some(c as int - 'A' as int)
    else if 'a' <= c <= 'z' then Some(c as int - 'a' as int + 26)
    else if '0' <= c <= '9' then Some(c as int - '0' as int + 52)
    else if c == '+' then Some(62)
    else if c == '/' then Some(63)
    else None
  }

  lemma ValueOfCharOf(v: Sextet)
    ensures ValueOf(CharOf(v)) == Some(v)
    ensures CharOf(v) != '=' && !Strings.IsSpace(CharOf(v))
  {
  }

  function Encode(t: seq<byte>): (s: string)
  {
    if |t| == 0 then []
    else if |t| == 1 then
      [CharOf(t[0] / 4), CharOf((t[0] % 4) * 16), '=', '=']
    else if |t| == 2 then
      [CharOf(t[0] / 4), CharOf((t[0] % 4) * 16 + t[1] / 16), CharOf((t[1] % 16) * 4), '=']
    else
      [CharOf(t[0] / 4), CharOf((t[0] % 4) * 16 + t[1] / 16),
       CharOf((t[1] % 16) * 4 + t[2] / 64), CharOf(t[2] % 64)] + Encode(t[3..])
  }

  lemma EncodeLong(t: seq<byte>)
    requires |t| >= 3
    ensures Encode(t) == [CharOf(t[0] / 4), CharOf((t[0] % 4) * 16 + t[1] / 16),
                          CharOf((t[1] % 16) * 4 + t[2] / 64), CharOf(t[2] % 64)] + Encode(t[3..])
  {
  }

  /** The three bytes a quantum of four sextets carries. */
  function Bytes3(a: Sextet, b: Sextet, c: Sextet, d: Sextet): seq<byte>
  {
    [a * 4 + b / 16, (b % 16) * 16 + c / 4, (c % 4) * 64 + d]
  }

  /** Go's `StdEncoding.DecodeString`, keeping only the bytes it returns:
      complete quanta are decoded until the end of the input, a padded final
      quantum or the first malformed quantum. */
  function Decode(s: string): (t: seq<byte>)
  {
    if |s| < 4 then []
    else
      var a, b, c, d := ValueOf(s[0]), ValueOf(s[1]), ValueOf(s[2]), ValueOf(s[3]);
      if a.Some? && b.Some? && c.Some? && d.Some? then
        Bytes3(a.value, b.value, c.value, d.value) + Decode(s[4..])
      else if a.Some? && b.Some? && c.Some? && s[3] == '=' then
        Bytes3(a.value, b.value, c.value, 0)[..2]
      else if a.Some? && b.Some? && s[2] == '=' && s[3] == '=' then
        Bytes3(a.value, b.value, 0, 0)[..1]
      else []
  }

  lemma Quantum3(x: byte, y: byte, z: byte)
    ensures Bytes3(x / 4, (x % 4) * 16 + y / 16, (y % 16) * 4 + z / 64, z % 64) == [x, y, z]
  {
  }

  lemma Quantum2(x: byte, y: byte)
    ensures Bytes3(x / 4, (x % 4) * 16 + y / 16, (y % 16) * 4, 0)[..2] == [x, y]
  {
  }

  lemma Quantum1(x: byte)
    ensures Bytes3(x / 4, (x % 4) * 16, 0, 0)[..1] == [x]
  {
  }

  /** One step of `Decode` over a leading quantum of four alphabet characters. */
  lemma DecodeQuantum(s: string, a: Sextet, b: Sextet, c: Sextet, d: Sextet)
    requires |s| >= 4 && s[..4] == [CharOf(a), CharOf(b), CharOf(c), CharOf(d)]
    ensures Decode(s) == Bytes3(a, b, c, d) + Decode(s[4..])
  {
    ValueOfCharOf(a);
    ValueOfCharOf(b);
    ValueOfCharOf(c);
    ValueOfCharOf(d);
    assert s[0] == CharOf(a) && s[1] == CharOf(b) && s[2] == CharOf(c) && s[3] == CharOf(d);
  }

  lemma DecodePadded1(s: string, a: Sextet, b: Sextet, c: Sextet)
    requires s == [CharOf(a), CharOf(b), CharOf(c), '=']
    ensures Decode(s) == Bytes3(a, b, c, 0)[..2]
  {
    ValueOfCharOf(a);
    ValueOfCharOf(b);
    ValueOfCharOf(c);
  }

  lemma DecodePadded2(s: string, a: Sextet, b: Sextet)
    requires s == [CharOf(a), CharOf(b), '=', '=']
    ensures Decode(s) == Bytes3(a, b, 0, 0)[..1]
  {
    ValueOfCharOf(a);
    ValueOfCharOf(b);
  }

  lemma DecodeEncodeOne(t: seq<byte>)
    requires |t| == 1
    ensures Decode(Encode(t)) == t
  {
    var a, b := t[0] / 4, (t[0] % 4) * 16;
    assert Encode(t) == [CharOf(a), CharOf(b), '=', '='];
    DecodePadded2(Encode(t), a, b);
    Quantum1(t[0]);
  }

  lemma DecodeEncodeTwo(t: seq<byte>)
    requires |t| == 2
    ensures Decode(Encode(t)) == t
  {
    var a, b, c := t[0] / 4, (t[0] % 4) * 16 + t[1] / 16, (t[1] % 16) * 4;
    assert Encode(t) == [CharOf(a), CharOf(b), CharOf(c), '='];
    DecodePadded1(Encode(t), a, b, c);
    Quantum2(t[0], t[1]);
  }

  /** Decoding what `Encode` produced gives the bytes back. */
  lemma {:induction false} DecodeEncode(t: seq<byte>)
    ensures Decode(Encode(t)) == t
    decreases |t|
  {
    if |t| == 0 {
    } else if |t| == 1 {
      DecodeEncodeOne(t);
    } else if |t| == 2 {
      DecodeEncodeTwo(t);
    } else {
      var a, b, c, d := t[0] / 4, (t[0] % 4) * 16 + t[1] / 16, (t[1] % 16) * 4 + t[2] / 64, t[2] % 64;
      var s := Encode(t);
      EncodeLong(t);
      DecodeQuantum(s, a, b, c, d);
      assert s[4..] == Encode(t[3..]);
      DecodeEncode(t[3..]);
      Quantum3(t[0], t[1], t[2]);
      assert t == t[..3] + t[3..];
    }
  }

  /** An encoding holds only alphabet characters and `=`, never white
      space, so trimming it changes nothing. */
  lemma {:induction false} EncodeHasNoSpace(t: seq<byte>)
    ensures forall i :: 0 <= i < |Encode(t)| ==> !Strings.IsSpace(Encode(t)[i])
    decreases |t|
  {
    if |t| >= 3 {
      EncodeHasNoSpace(t[3..]);
      ValueOfCharOf(t[0] / 4);
      ValueOfCharOf((t[0] % 4) * 16 + t[1] / 16);
      ValueOfCharOf((t[1] % 16) * 4 + t[2] / 64);
      ValueOfCharOf(t[2] % 64);
    } else if |t| == 2 {
      ValueOfCharOf(t[0] / 4);
      ValueOfCharOf((t[0] % 4) * 16 + t[1] / 16);
      ValueOfCharOf((t[1] % 16) * 4);
    } else if |t| == 1 {
      ValueOfCharOf(t[0] / 4);
      ValueOfCharOf((t[0] % 4) * 16);
    }
  }
}
