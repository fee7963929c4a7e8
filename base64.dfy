/**
 * The base64 decoder the logo manager uses for asset payloads: the RFC 4648
 * section 4 alphabet, four characters per group, '=' padding, decoding into
 * a caller's buffer of bounded size.  The encoded text is a C string: the
 * sequence here holds its characters up to the terminating NUL, and reading
 * one character past the end sees that NUL.
 *
 * An encoder written from RFC 4648 section 4 is the decoder's partner.
 */
module Base64 {
  import opened Wrappers
  import opened Bits

  /** '=' */
  const PAD: byte := 61
  /** The decode table's mark for a character outside the alphabet. */
  const INVALID: int := 0xFF

  /** The decode table: the alphabet position of a character, or 0xFF. */
  function DecodeValue(c: byte): (v: int)
    ensures v == INVALID || 0 <= v < 64
  {
    if 65 <= c <= 90 then c - 65          // 'A'..'Z'
    else if 97 <= c <= 122 then c - 71    // 'a'..'z'
    else if 48 <= c <= 57 then c + 4      // '0'..'9'
    else if c == 43 then 62               // '+'
    else if c == 47 then 63               // '/'
    else INVALID
  }

  /** The alphabet: the character for a 6-bit value. */
  function EncodeValue(v: int): (c: byte)
    requires 0 <= v < 64
    ensures DecodeValue(c) == v
    ensures c != PAD && c != 0
  {
    if v < 26 then v + 65
    else if v < 52 then v + 71
    else if v < 62 then v - 4
    else if v == 62 then 43
    else 47
  }

  /** The character at `k`, or the terminating NUL past the end. */
  function At(s: seq<byte>, k: nat): byte
  {
    if k < |s| then s[k] else 0
  }

  /** Position `k` of a group holds a character other than padding. */
  predicate Present(s: seq<byte>, k: nat)
  {
    k < |s| && s[k] != PAD
  }

  /** The value the decoder reads for a third or fourth character: 0 when absent. */
  function Sextet(s: seq<byte>, k: nat): (v: byte)
    ensures v == INVALID || v < 64
  {
    if Present(s, k) then DecodeValue(s[k]) else 0
  }

  /** `|` on two octets. */
  function Or8(x: byte, y: byte): byte
  {
    assert Pow2(8) == 256;
    Or(x, y, 8)
  }

  /** OR of a value with zero low bits and one that fits in them is their sum. */
  lemma OrLowBits(x: byte, y: byte, k: nat)
    requires k == 2 || k == 4 || k == 6
    requires x % Pow2(k) == 0 && y < Pow2(k)
    ensures Or8(x, y) == x + y
  {
    assert Pow2(2) == 4 && Pow2(4) == 16 && Pow2(6) == 64 && Pow2(8) == 256;
    OrDisjoint(x, y, x / Pow2(k), k, 8);
  }

  /**
   * The bytes one group yields: `(a << 2) | (b >> 4)`, then
   * `(b << 4) | (c >> 2)` when the third character is present, then
   * `(c << 6) | d` when the fourth is present too, each kept to 8 bits
   * as the store into a `uint8_t` keeps it.
   */
  function GroupBytes(s: seq<byte>): (r: seq<byte>)
    requires DecodeValue(At(s, 0)) != INVALID && DecodeValue(At(s, 1)) != INVALID
    ensures 1 <= |r| <= 3
    ensures |r| == if !Present(s, 2) then 1 else if !Present(s, 3) then 2 else 3
  {
    var a := DecodeValue(At(s, 0));
    var b := DecodeValue(At(s, 1));
    var c := Sextet(s, 2);
    var d := Sextet(s, 3);
    var x0 := Or8(a * 4 % 256, b / 16);
    var x1 := Or8(b * 16 % 256, c / 4);
    var x2 := Or8(c * 64 % 256, d);
    if !Present(s, 2) then [x0]
    else if !Present(s, 3) then [x0, x1]
    else [x0, x1, x2]
  }

  /** The rest of the text after the current group. */
  function NextGroup(s: seq<byte>): (r: seq<byte>)
    ensures |r| < |s| || s == []
  {
    if |s| >= 4 then s[4..] else []
  }

  /** `Some(p) ++ x`, propagating a rejection. */
  function Prepend(p: seq<byte>, x: Option<seq<byte>>): Option<seq<byte>>
  {
    match x
    case None => None
    case Some(r) => Some(p + r)
  }

  lemma PrependEmpty(x: Option<seq<byte>>)
    ensures Prepend([], x) == x
  {
    if x.Some? {
      assert [] + x.value == x.value;
    }
  }

  lemma PrependPrepend(p: seq<byte>, q: seq<byte>, x: Option<seq<byte>>)
    ensures Prepend(p, Prepend(q, x)) == Prepend(p + q, x)
  {
    if x.Some? {
      assert p + (q + x.value) == (p + q) + x.value;
    }
  }

  /**
   * `base64Decode` as written, from the group at the front of `s` with
   * `written` bytes already produced: decoding stops when a further group
   * could overflow `max`, and the whole call yields 0 (`None`) when the first
   * or second character of a group is not in the alphabet.
   */
  function DecodeFrom(s: seq<byte>, written: nat, max: nat): (r: Option<seq<byte>>)
    ensures r.Some? && written <= max ==> written + |r.value| <= max
    decreases |s|
  {
    if s == [] then Some([])
    else if written + 3 > max then Some([])
    else if DecodeValue(At(s, 0)) == INVALID || DecodeValue(At(s, 1)) == INVALID then None
    else
      var q := GroupBytes(s);
      Prepend(q, DecodeFrom(NextGroup(s), written + |q|, max))
  }

  /** The decoder's result for a whole text: the bytes, or `None` for the 0 return. */
  function Decoded(encoded: seq<byte>, max: nat): Option<seq<byte>>
  {
    DecodeFrom(encoded, 0, max)
  }

  /**
   * `base64Decode`: fills `decoded` and returns the number of bytes
   * produced, writing nothing at or beyond `maxDecodedSize`.
   */
  method Base64Decode(encoded: seq<byte>, decoded: array<byte>, maxDecodedSize: nat) returns (n: nat)
    requires maxDecodedSize <= decoded.Length
    modifies decoded
    ensures n <= maxDecodedSize
    ensures Decoded(encoded, maxDecodedSize).None? ==> n == 0
    ensures Decoded(encoded, maxDecodedSize).Some? ==>
      n == |Decoded(encoded, maxDecodedSize).value| && decoded[..n] == Decoded(encoded, maxDecodedSize).value
    ensures forall k :: maxDecodedSize <= k < decoded.Length ==> decoded[k] == old(decoded[k])
  {
    var i := 0;
    var len := 0;
    assert encoded[0..] == encoded;
    assert decoded[..0] == [];
    PrependEmpty(Decoded(encoded, maxDecodedSize));
    while i < |encoded|
      invariant i <= |encoded| + 3
      invariant len <= maxDecodedSize
      invariant Decoded(encoded, maxDecodedSize) ==
        Prepend(decoded[..len], DecodeFrom(if i < |encoded| then encoded[i..] else [], len, maxDecodedSize))
      invariant forall k :: maxDecodedSize <= k < decoded.Length ==> decoded[k] == old(decoded[k])
      decreases |encoded| - i
    {
      var s := encoded[i..];
      if len + 3 > maxDecodedSize {
        break;
      }
      var a := DecodeValue(At(s, 0));
      var b := DecodeValue(At(s, 1));
      if a == INVALID || b == INVALID {
        return 0;
      }
      ghost var before := decoded[..len];
      ghost var q := GroupBytes(s);
      len := WriteGroup(s, decoded, len);
      assert decoded[..len] == before + q;
      PrependPrepend(before, q, DecodeFrom(NextGroup(s), len, maxDecodedSize));
      assert NextGroup(s) == if i + 4 < |encoded| then encoded[i + 4..] else [];
      i := i + 4;
    }
    assert decoded[..len] + [] == decoded[..len];
    n := len;
  }

  /** The writes of one group into the buffer. */
  method WriteGroup(s: seq<byte>, decoded: array<byte>, len: nat) returns (len': nat)
    requires DecodeValue(At(s, 0)) != INVALID && DecodeValue(At(s, 1)) != INVALID
    requires len + 3 <= decoded.Length
    modifies decoded
    ensures len' == len + |GroupBytes(s)|
    ensures decoded[..len'] == old(decoded[..len]) + GroupBytes(s)
    ensures forall k :: len' <= k < decoded.Length ==> decoded[k] == old(decoded[k])
  {
    var q := GroupBytes(s);
    decoded[len] := q[0];
    len' := len + 1;
    if |q| >= 2 {
      decoded[len'] := q[1];
      len' := len' + 1;
      if |q| == 3 {
        decoded[len'] := q[2];
        len' := len' + 1;
      }
    }
    assert decoded[..len'] == decoded[..len] + q;
  }

  // ---------------------------------------------------------------------------
  // The encoder of RFC 4648 section 4, and the round trip
  // ---------------------------------------------------------------------------

  /** Three bytes, or the one or two left at the end, as four characters. */
  function EncodeGroup(g: seq<byte>): (r: seq<byte>)
    requires 1 <= |g| <= 3
    ensures |r| == 4
  {
    var x0 := g[0];
    var x1 := if |g| > 1 then g[1] else 0;
    var x2 := if |g| > 2 then g[2] else 0;
    var c0 := EncodeValue(x0 / 4);
    var c1 := EncodeValue(x0 % 4 * 16 + x1 / 16);
    var c2 := if |g| > 1 then EncodeValue(x1 % 16 * 4 + x2 / 64) else PAD;
    var c3 := if |g| > 2 then EncodeValue(x2 % 64) else PAD;
    [c0, c1, c2, c3]
  }

  function Encode(data: seq<byte>): (r: seq<byte>)
    ensures |r| == 4 * ((|data| + 2) / 3)
    decreases |data|
  {
    if data == [] then []
    else if |data| <= 3 then EncodeGroup(data)
    else
      var rest := Encode(data[3..]);
      assert (|data| - 3 + 2) / 3 + 1 == (|data| + 2) / 3;
      EncodeGroup(data[..3]) + rest
  }

  /** The decoder's shifts undo the encoder's, byte by byte. */
  lemma FirstByte(x0: byte, x1: byte)
    ensures Or8(x0 / 4 * 4 % 256, (x0 % 4 * 16 + x1 / 16) / 16) == x0
  {
    var h, l, t := x0 / 4, x0 % 4, x1 / 16;
    assert x0 == h * 4 + l && h < 64 && t < 16;
    assert h * 4 % 256 == h * 4;
    assert (l * 16 + t) / 16 == l;
    assert Pow2(2) == 4;
    OrLowBits(h * 4, l, 2);
  }

  lemma SecondByte(x0: byte, x1: byte, x2: byte)
    ensures Or8((x0 % 4 * 16 + x1 / 16) * 16 % 256, (x1 % 16 * 4 + x2 / 64) / 4) == x1
  {
    var l, t, m, u := x0 % 4, x1 / 16, x1 % 16, x2 / 64;
    assert x1 == t * 16 + m && l < 4 && t < 16 && u < 4;
    assert (l * 16 + t) * 16 == l * 256 + t * 16;
    assert (l * 256 + t * 16) % 256 == t * 16;
    assert (m * 4 + u) / 4 == m;
    assert Pow2(4) == 16;
    OrLowBits(t * 16, m, 4);
  }

  lemma ThirdByte(x1: byte, x2: byte)
    ensures Or8((x1 % 16 * 4 + x2 / 64) * 64 % 256, x2 % 64) == x2
  {
    var m, u, v := x1 % 16, x2 / 64, x2 % 64;
    assert x2 == u * 64 + v && m < 16 && u < 4;
    assert (m * 4 + u) * 64 == m * 256 + u * 64;
    assert (m * 256 + u * 64) % 256 == u * 64;
    assert Pow2(6) == 64;
    OrLowBits(u * 64, v, 6);
  }

  /** One encoded group decodes to the bytes it came from. */
  lemma GroupRoundTrip(g: seq<byte>, rest: seq<byte>)
    requires 1 <= |g| <= 3
    ensures var s := EncodeGroup(g) + rest;
      DecodeValue(At(s, 0)) != INVALID && DecodeValue(At(s, 1)) != INVALID &&
      GroupBytes(s) == g && NextGroup(s) == rest
  {
    var s := EncodeGroup(g) + rest;
    var e := EncodeGroup(g);
    assert s[..4] == e && s[4..] == rest;
    var x0 := g[0];
    var x1 := if |g| > 1 then g[1] else 0;
    var x2 := if |g| > 2 then g[2] else 0;
    assert DecodeValue(At(s, 0)) == x0 / 4;
    assert DecodeValue(At(s, 1)) == x0 % 4 * 16 + x1 / 16;
    assert |g| > 1 ==> Present(s, 2) && Sextet(s, 2) == x1 % 16 * 4 + x2 / 64;
    assert |g| == 1 ==> !Present(s, 2);
    assert |g| > 2 ==> Present(s, 3) && Sextet(s, 3) == x2 % 64;
    assert |g| == 2 ==> !Present(s, 3);
    FirstByte(x0, x1);
    SecondByte(x0, x1, x2);
    ThirdByte(x1, x2);
  }

  /** With room for every group, decoding an encoding gives the data back. */
  lemma {:induction false} DecodeEncode(data: seq<byte>, written: nat, max: nat)
    requires written + 3 * ((|data| + 2) / 3) <= max
    ensures DecodeFrom(Encode(data), written, max) == Some(data)
    decreases |data|
  {
    if data != [] {
      var g := if |data| <= 3 then data else data[..3];
      var rest := if |data| <= 3 then [] else data[3..];
      assert data == g + rest;
      assert Encode(data) == EncodeGroup(g) + Encode(rest);
      GroupRoundTrip(g, Encode(rest));
      DecodeEncode(rest, written + |g|, max);
      assert g + rest == data;
    }
  }

  /** The decoder inverts the encoder when the buffer holds three bytes per group. */
  lemma Base64RoundTrip(data: seq<byte>, maxDecodedSize: nat)
    requires 3 * ((|data| + 2) / 3) <= maxDecodedSize
    ensures Decoded(Encode(data), maxDecodedSize) == Some(data)
  {
    DecodeEncode(data, 0, maxDecodedSize);
  }

  // ---------------------------------------------------------------------------
  // The unchecked third and fourth characters
  // ---------------------------------------------------------------------------

  /** "QQ#=": the '#' is no base64 character, yet the group decodes to two bytes. */
  lemma ForeignThirdCharacterAccepted(s: seq<byte>)
    requires s == [81, 81, 35, 61]
    ensures Decoded(s, 3) == Some([65, 63])
  {
    assert DecodeValue(s[0]) == 16 && DecodeValue(s[1]) == 16 && DecodeValue(s[2]) == INVALID;
    var q := TwoByteGroup(s, 16, 16);
    OrExamples();
    assert DecodeFrom([], |q|, 3) == Some([]);
    assert q + [] == q;
  }

  lemma OrExamples()
    ensures Or8(64, 1) == 65 && Or8(0, 63) == 63
  {
    assert Pow2(2) == 4 && Pow2(6) == 64;
    OrLowBits(64, 1, 2);
    OrLowBits(0, 63, 6);
  }

  /** A group of two characters, a foreign third one and padding. */
  lemma TwoByteGroup(s: seq<byte>, a: byte, b: byte) returns (q: seq<byte>)
    requires |s| == 4 && s[3] == PAD && s[2] != PAD && DecodeValue(s[2]) == INVALID
    requires DecodeValue(s[0]) == a < 64 && DecodeValue(s[1]) == b < 64
    ensures q == [Or8(a * 4 % 256, b / 16), Or8(b * 16 % 256, 63)]
    ensures Decoded(s, 3) == Prepend(q, DecodeFrom([], |q|, 3))
  {
    q := GroupBytes(s);
    assert NextGroup(s) == [];
  }

  /** Every character a group uses is in the alphabet, except absent or padding ones. */
  predicate GroupCharsValid(s: seq<byte>)
  {
    DecodeValue(At(s, 0)) != INVALID && DecodeValue(At(s, 1)) != INVALID &&
    (Present(s, 2) ==> DecodeValue(s[2]) != INVALID) &&
    (Present(s, 3) ==> DecodeValue(s[3]) != INVALID)
  }

  /** The decoder with the third and fourth characters checked as well. */
  function StrictDecodeFrom(s: seq<byte>, written: nat, max: nat): (r: Option<seq<byte>>)
    decreases |s|
  {
    if s == [] then Some([])
    else if written + 3 > max then Some([])
    else if !GroupCharsValid(s) then None
    else
      var q := GroupBytes(s);
      Prepend(q, StrictDecodeFrom(NextGroup(s), written + |q|, max))
  }

  function StrictDecoded(encoded: seq<byte>, max: nat): Option<seq<byte>>
  {
    StrictDecodeFrom(encoded, 0, max)
  }

  lemma GroupCharsValidHead(s: seq<byte>)
    requires GroupCharsValid(s)
    ensures forall k :: 0 <= k < 4 && k < |s| && s[k] != PAD ==> DecodeValue(s[k]) != INVALID
  {
  }

  /** A long text the checked decoder accepts: its first group is valid and the rest is accepted. */
  lemma StrictStep(s: seq<byte>, written: nat, max: nat) returns (w: nat)
    requires |s| > 4 && written + 3 <= max
    requires StrictDecodeFrom(s, written, max).Some?
    ensures GroupCharsValid(s) && w <= written + 3
    ensures StrictDecodeFrom(s[4..], w, max).Some?
  {
    w := written + |GroupBytes(s)|;
  }

  /** The checked decoder accepts only text whose groups use alphabet characters. */
  lemma {:induction false} StrictAcceptsOnlyAlphabet(s: seq<byte>, written: nat, max: nat)
    requires written + 3 * ((|s| + 3) / 4) <= max
    requires StrictDecodeFrom(s, written, max).Some?
    ensures forall k :: 0 <= k < |s| && s[k] != PAD ==> DecodeValue(s[k]) != INVALID
    decreases |s|
  {
    if s != [] {
      assert written + 3 <= max;
      if |s| > 4 {
        assert (|s| - 4 + 3) / 4 == (|s| + 3) / 4 - 1;
        var w := StrictStep(s, written, max);
        GroupCharsValidHead(s);
        StrictAcceptsOnlyAlphabet(s[4..], w, max);
        ShiftedValid(s);
      } else {
        assert GroupCharsValid(s);
        GroupCharsValidHead(s);
      }
    }
  }

  lemma ShiftedValid(s: seq<byte>)
    requires |s| > 4
    requires forall k :: 0 <= k < 4 && k < |s| && s[k] != PAD ==> DecodeValue(s[k]) != INVALID
    requires forall k :: 0 <= k < |s[4..]| && s[4..][k] != PAD ==> DecodeValue(s[4..][k]) != INVALID
    ensures forall k :: 0 <= k < |s| && s[k] != PAD ==> DecodeValue(s[k]) != INVALID
  {
    forall k | 4 <= k < |s| && s[k] != PAD ensures DecodeValue(s[k]) != INVALID {
      assert s[k] == s[4..][k - 4];
    }
  }

  /** The checked decoder still inverts the encoder. */
  lemma {:induction false} StrictDecodeEncode(data: seq<byte>, written: nat, max: nat)
    requires written + 3 * ((|data| + 2) / 3) <= max
    ensures StrictDecodeFrom(Encode(data), written, max) == Some(data)
    decreases |data|
  {
    if data != [] {
      var g := if |data| <= 3 then data else data[..3];
      var rest := if |data| <= 3 then [] else data[3..];
      assert data == g + rest;
      var s := Encode(data);
      assert s == EncodeGroup(g) + Encode(rest);
      GroupRoundTrip(g, Encode(rest));
      assert s[..4] == EncodeGroup(g);
      assert GroupCharsValid(s);
      StrictDecodeEncode(rest, written + |g|, max);
    }
  }

  /** The checked decoder rejects "QQ#=". */
  lemma ForeignThirdCharacterRejected()
    ensures StrictDecoded([81, 81, 35, 61], 3) == None
  {
    var s: seq<byte> := [81, 81, 35, 61];
    assert Present(s, 2) && DecodeValue(s[2]) == INVALID;
  }
}
