/** The standard padded base64 encoding (RFC 4648, section 4), as
    `base64.StdEncoding` provides it: the encoder that ui.go uses to show a
    loaded key's blob, and the decoder that turns a displayed blob back into
    bytes. Only the inverse relation is relied on by the rest of the model. */
module Base64 {
  import opened Wrappers
  import opened KeyTypes

  /** The character for a 6-bit value, from the alphabet
      A-Z, a-z, 0-9, '+', '/'. */
  function Sextet(v: int): (c: char)
    requires 0 <= v < 64
  {
    if v < 26 then ('A' as int + v) as char
    else if v < 52 then ('a' as int + (v - 26)) as char
    else if v < 62 then ('0' as int + (v - 52)) as char
    else if v == 62 then '+'
    else '/'
  }

  /** The 6-bit value of an alphabet character, or None for any other. */
  function SextetValue(c: char): (r: Option<int>)
    ensures r.Some? ==> 0 <= r.value < 64 && Sextet(r.value) == c
  {
    if 'A' <= c <= 'Z' then Some(c as int - 'A' as int)
    else if 'a' <= c <= 'z' then Some(c as int - 'a' as int + 26)
    else if '0' <= c <= '9' then Some(c as int - '0' as int + 52)
    else if c == '+' then Some(62)
    else if c == '/' then Some(63)
    else None
  }

  lemma SextetRoundTrip(v: int)
    requires 0 <= v < 64
    ensures SextetValue(Sextet(v)) == Some(v)
  {
  }

  const Pad: char := '='

  /** The four characters for three whole bytes. */
  function Group(x: byte, y: byte, z: byte): (q: string)
    ensures |q| == 4
  {
    [Sextet(x / 4), Sextet((x % 4) * 16 + y / 16), Sextet((y % 16) * 4 + z / 64), Sextet(z % 64)]
  }

  /** `base64.StdEncoding.EncodeToString`. */
  function EncodeToString(b: seq<byte>): (s: string)
    ensures |s| == 4 * ((|b| + 2) / 3)
    decreases |b|
  {
    if |b| == 0 then ""
    else if |b| == 1 then
      [Sextet(b[0] / 4), Sextet((b[0] % 4) * 16), Pad, Pad]
    else if |b| == 2 then
      [Sextet(b[0] / 4), Sextet((b[0] % 4) * 16 + b[1] / 16), Sextet((b[1] % 16) * 4), Pad]
    else
      assert (|b[3..]| + 2) / 3 == (|b| + 2) / 3 - 1;
      Group(b[0], b[1], b[2]) + EncodeToString(b[3..])
  }

  /** Decodes one group of four characters, the last `pads` of which are
      padding, into 3 - pads bytes. As in Go's non-strict decoder, bits
      below the last whole byte are ignored. */
  function DecodeGroup(q: string, pads: nat): (r: Option<seq<byte>>)
    requires |q| == 4 && pads <= 2
    ensures r.Some? ==> |r.value| == 3 - pads
  {
    var v0, v1 := SextetValue(q[0]), SextetValue(q[1]);
    var v2 := if pads < 2 then SextetValue(q[2]) else Some(0);
    var v3 := if pads < 1 then SextetValue(q[3]) else Some(0);
    if v0.None? || v1.None? || v2.None? || v3.None? then None
    else
      var a, b, c, d := v0.value, v1.value, v2.value, v3.value;
      var bytes: seq<byte> := [a * 4 + b / 16, (b % 16) * 16 + c / 4, (c % 4) * 64 + d];
      Some(bytes[..3 - pads])
  }

  /** `base64.StdEncoding.DecodeString`: None stands for Go's
      "illegal base64 data" error. */
  function DecodeString(s: string): (r: Option<seq<byte>>)
    ensures |s| % 4 != 0 ==> r.None?
    ensures r.Some? ==> 3 * (|s| / 4) - 2 <= |r.value| <= 3 * (|s| / 4)
    decreases |s|
  {
    if |s| == 0 then Some([])
    else if |s| < 4 then None
    else if |s| == 4 && s[3] == Pad then
      DecodeGroup(s, if s[2] == Pad then 2 else 1)
    else
      match DecodeGroup(s[..4], 0)
      case None => None
      case Some(g) =>
        match DecodeString(s[4..])
        case None => None
        case Some(rest) => Some(g + rest)
  }

  /** The three bytes of a group survive the trip through four sextets. */
  lemma GroupRoundTrip(x: byte, y: byte, z: byte)
    ensures var a, b, c, d := x / 4, (x % 4) * 16 + y / 16, (y % 16) * 4 + z / 64, z % 64;
            0 <= b < 64 && 0 <= c < 64 &&
            a * 4 + b / 16 == x && (b % 16) * 16 + c / 4 == y && (c % 4) * 64 + d == z
  {
    var b := (x % 4) * 16 + y / 16;
    assert b / 16 == x % 4 && b % 16 == y / 16;
    var c := (y % 16) * 4 + z / 64;
    assert c / 4 == y % 16 && c % 4 == z / 64;
  }

  /** A group whose sextets come from three bytes decodes to them. */
  lemma DecodeGroupOf(x: byte, y: byte, z: byte, q: string, pads: nat)
    requires pads <= 2 && |q| == 4
    requires q[0] == Sextet(x / 4) && q[1] == Sextet((x % 4) * 16 + y / 16)
    requires pads < 2 ==> q[2] == Sextet((y % 16) * 4 + z / 64)
    requires pads < 1 ==> q[3] == Sextet(z % 64)
    ensures DecodeGroup(q, pads) == Some([x, y, z][..3 - pads])
  {
    GroupRoundTrip(x, y, z);
    SextetRoundTrip(x / 4);
    SextetRoundTrip((x % 4) * 16 + y / 16);
    SextetRoundTrip((y % 16) * 4 + z / 64);
    SextetRoundTrip(z % 64);
    var b := (x % 4) * 16 + y / 16;
    var c := if pads < 2 then (y % 16) * 4 + z / 64 else 0;
    var d := if pads < 1 then z % 64 else 0;
    assert SextetValue(q[0]) == Some(x / 4) && SextetValue(q[1]) == Some(b);
    assert pads < 2 ==> SextetValue(q[2]) == Some(c);
    assert pads < 1 ==> SextetValue(q[3]) == Some(d);
    var bytes: seq<byte> := [x / 4 * 4 + b / 16, (b % 16) * 16 + c / 4, (c % 4) * 64 + d];
    assert DecodeGroup(q, pads) == Some(bytes[..3 - pads]);
    assert bytes[0] == x;
    assert pads < 2 ==> bytes[1] == y;
    assert pads < 1 ==> bytes[2] == z;
    if pads == 0 {
      assert bytes == [x, y, z];
    } else if pads == 1 {
      assert bytes[..2] == [x, y] == [x, y, z][..2];
    } else {
      assert bytes[..1] == [x] == [x, y, z][..1];
    }
  }

  /** Decoding undoes encoding. */
  lemma {:induction false} DecodeEncode(b: seq<byte>)
    ensures DecodeString(EncodeToString(b)) == Some(b)
    decreases |b|
  {
    if |b| == 0 {
    } else if |b| <= 2 {
      DecodeEncodeShort(b);
    } else {
      EncodeFirstGroup(b);
      DecodeEncode(b[3..]);
      assert b[..3] + b[3..] == b;
    }
  }

  /** One or two bytes encode to a single padded group that decodes back. */
  lemma {:induction false} DecodeEncodeShort(b: seq<byte>)
    requires 1 <= |b| <= 2
    ensures DecodeString(EncodeToString(b)) == Some(b)
  {
    var s := EncodeToString(b);
    if |b| == 1 {
      assert (b[0] % 4) * 16 + 0 / 16 == (b[0] % 4) * 16;
      DecodeGroupOf(b[0], 0, 0, s, 2);
      assert [b[0], 0, 0][..1] == b;
    } else {
      assert (b[1] % 16) * 4 + 0 / 64 == (b[1] % 16) * 4;
      DecodeGroupOf(b[0], b[1], 0, s, 1);
      assert [b[0], b[1], 0][..2] == b;
    }
  }

  /** Three or more bytes encode to an unpadded group for the first three,
      followed by the encoding of the rest. */
  lemma {:induction false} EncodeFirstGroup(b: seq<byte>)
    requires |b| >= 3
    ensures var s := EncodeToString(b);
      |s| >= 4 && s[3] != Pad && DecodeGroup(s[..4], 0) == Some(b[..3]) &&
      s[4..] == EncodeToString(b[3..])
  {
    var s := EncodeToString(b);
    var g := Group(b[0], b[1], b[2]);
    assert s[..4] == g && s[4..] == EncodeToString(b[3..]);
    DecodeGroupOf(b[0], b[1], b[2], g, 0);
    assert [b[0], b[1], b[2]][..3] == [b[0], b[1], b[2]] == b[..3];
  }

  /** Different byte strings never share an encoding. */
  lemma EncodeInjective(a: seq<byte>, b: seq<byte>)
    ensures EncodeToString(a) == EncodeToString(b) ==> a == b
  {
    DecodeEncode(a);
    DecodeEncode(b);
  }
}
