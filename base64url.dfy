/**
 * Padded base64 with the URL- and filename-safe alphabet of section 5 of
 * RFC 4648 (Go's `base64.URLEncoding`), with a decoder as its inverse.
 */
module Base64Url {
  import opened Wrappers
  import opened Bytes

  /** The padding character `=`. */
  const Pad: byte := 61

  /** The character that encodes the 6-bit value `v`: `A`-`Z`, `a`-`z`, `0`-`9`, `-`, `_`. */
  function Symbol(v: int): byte
    requires 0 <= v < 64
  {
    if v < 26 then 65 + v
    else if v < 52 then 97 + (v - 26)
    else if v < 62 then 48 + (v - 52)
    else if v == 62 then 45
    else 95
  }

  /** The 6-bit value a character of the alphabet stands for; `None` for any other byte, `=` included. */
  function SymbolValue(b: byte): (r: Option<int>)
    ensures r.Some? ==> 0 <= r.value < 64 && Symbol(r.value) == b
  {
    if 65 <= b <= 90 then Some(b - 65)
    else if 97 <= b <= 122 then Some(b - 97 + 26)
    else if 48 <= b <= 57 then Some(b - 48 + 52)
    else if b == 45 then Some(62)
    else if b == 95 then Some(63)
    else None
  }

  /** Bytes that the encoder may emit: the alphabet and the padding character. */
  predicate IsEncodingByte(b: byte)
  {
    SymbolValue(b).Some? || b == Pad
  }

  /** Go's `base64.URLEncoding.EncodeToString`, as bytes: padded, so whole groups of four. */
  function Encode(s: seq<byte>): (r: seq<byte>)
    ensures |r| % 4 == 0
  {
    if |s| == 0 then []
    else if |s| == 1 then
      [Symbol(s[0] / 4), Symbol((s[0] % 4) * 16), Pad, Pad]
    else if |s| == 2 then
      [Symbol(s[0] / 4), Symbol((s[0] % 4) * 16 + s[1] / 16), Symbol((s[1] % 16) * 4), Pad]
    else
      [Symbol(s[0] / 4), Symbol((s[0] % 4) * 16 + s[1] / 16), Symbol((s[1] % 16) * 4 + s[2] / 64), Symbol(s[2] % 64)]
      + Encode(s[3..])
  }

  /** Four symbols back to three bytes. */
  function DecodeFull(t0: byte, t1: byte, t2: byte, t3: byte): Option<seq<byte>>
  {
    match (SymbolValue(t0), SymbolValue(t1), SymbolValue(t2), SymbolValue(t3))
    case (Some(v0), Some(v1), Some(v2), Some(v3)) =>
      Some([v0 * 4 + v1 / 16, (v1 % 16) * 16 + v2 / 4, (v2 % 4) * 64 + v3])
    case _ => None
  }

  /** The last quadruple, which may end in one or two padding characters. */
  function DecodeLast(t0: byte, t1: byte, t2: byte, t3: byte): Option<seq<byte>>
  {
    if t2 == Pad && t3 == Pad then
      match (SymbolValue(t0), SymbolValue(t1))
      case (Some(v0), Some(v1)) => Some([v0 * 4 + v1 / 16])
      case _ => None
    else if t3 == Pad then
      match (SymbolValue(t0), SymbolValue(t1), SymbolValue(t2))
      case (Some(v0), Some(v1), Some(v2)) => Some([v0 * 4 + v1 / 16, (v1 % 16) * 16 + v2 / 4])
      case _ => None
    else DecodeFull(t0, t1, t2, t3)
  }

  /** Padded base64url text back to the bytes it encodes; `None` for text that is not such an encoding. */
  function Decode(t: seq<byte>): Option<seq<byte>>
  {
    if |t| == 0 then Some([])
    else if |t| < 4 then None
    else if |t| == 4 then DecodeLast(t[0], t[1], t[2], t[3])
    else
      match (DecodeFull(t[0], t[1], t[2], t[3]), Decode(t[4..]))
      case (Some(head), Some(tail)) => Some(head + tail)
      case _ => None
  }

  lemma ThreeBytes(b0: byte, b1: byte, b2: byte)
    ensures DecodeFull(Symbol(b0 / 4), Symbol((b0 % 4) * 16 + b1 / 16), Symbol((b1 % 16) * 4 + b2 / 64), Symbol(b2 % 64))
            == Some([b0, b1, b2])
  {
    var v0, v1, v2, v3 := b0 / 4, (b0 % 4) * 16 + b1 / 16, (b1 % 16) * 4 + b2 / 64, b2 % 64;
    SymbolRoundTrip(v0); SymbolRoundTrip(v1); SymbolRoundTrip(v2); SymbolRoundTrip(v3);
    assert v1 / 16 == b0 % 4 && v1 % 16 == b1 / 16;
    assert v2 / 4 == b1 % 16 && v2 % 4 == b2 / 64;
  }

  lemma SymbolRoundTrip(v: int)
    requires 0 <= v < 64
    ensures SymbolValue(Symbol(v)) == Some(v)
  {
  }

  lemma OneByte(b0: byte)
    ensures DecodeLast(Symbol(b0 / 4), Symbol((b0 % 4) * 16), Pad, Pad) == Some([b0])
  {
    var v0, v1 := b0 / 4, (b0 % 4) * 16;
    SymbolRoundTrip(v0); SymbolRoundTrip(v1);
    assert v1 / 16 == b0 % 4;
  }

  lemma TwoBytes(b0: byte, b1: byte)
    ensures DecodeLast(Symbol(b0 / 4), Symbol((b0 % 4) * 16 + b1 / 16), Symbol((b1 % 16) * 4), Pad) == Some([b0, b1])
  {
    var v0, v1, v2 := b0 / 4, (b0 % 4) * 16 + b1 / 16, (b1 % 16) * 4;
    SymbolRoundTrip(v0); SymbolRoundTrip(v1); SymbolRoundTrip(v2);
    assert v1 / 16 == b0 % 4 && v1 % 16 == b1 / 16;
    assert v2 / 4 == b1 % 16;
  }

  lemma ThreeBytesLast(b0: byte, b1: byte, b2: byte)
    ensures DecodeLast(Symbol(b0 / 4), Symbol((b0 % 4) * 16 + b1 / 16), Symbol((b1 % 16) * 4 + b2 / 64), Symbol(b2 % 64))
            == Some([b0, b1, b2])
  {
    ThreeBytes(b0, b1, b2);
    SymbolRoundTrip((b1 % 16) * 4 + b2 / 64);
    SymbolRoundTrip(b2 % 64);
  }

  /** Decoding undoes encoding: no information is lost. */
  lemma {:induction false} DecodeEncode(s: seq<byte>)
    ensures Decode(Encode(s)) == Some(s)
    decreases |s|
  {
    if |s| == 1 {
      OneByte(s[0]);
      assert s == [s[0]];
    } else if |s| == 2 {
      TwoBytes(s[0], s[1]);
      assert s == [s[0], s[1]];
    } else if |s| == 3 {
      ThreeBytesLast(s[0], s[1], s[2]);
      assert Encode(s[3..]) == [];
      assert s == [s[0], s[1], s[2]];
    } else if |s| > 3 {
      DecodeEncodeGroup(s);
    }
  }

  lemma {:induction false} DecodeEncodeGroup(s: seq<byte>)
    requires |s| > 3
    ensures Decode(Encode(s)) == Some(s)
    decreases |s|, 0
  {
    var head := [Symbol(s[0] / 4), Symbol((s[0] % 4) * 16 + s[1] / 16), Symbol((s[1] % 16) * 4 + s[2] / 64), Symbol(s[2] % 64)];
    var rest := Encode(s[3..]);
    assert Encode(s) == head + rest;
    ThreeBytes(s[0], s[1], s[2]);
    DecodeEncode(s[3..]);
    EncodeLength(s[3..]);
    DecodeGroups(head, rest, [s[0], s[1], s[2]], s[3..]);
    assert s == [s[0], s[1], s[2]] + s[3..];
  }

  /** A full quadruple followed by more text decodes to its three bytes followed by what the rest decodes to. */
  lemma DecodeGroups(head: seq<byte>, rest: seq<byte>, x: seq<byte>, y: seq<byte>)
    requires |head| == 4 && |rest| >= 4
    requires DecodeFull(head[0], head[1], head[2], head[3]) == Some(x) && Decode(rest) == Some(y)
    ensures Decode(head + rest) == Some(x + y)
  {
    var t := head + rest;
    assert t[4..] == rest;
    assert t[0] == head[0] && t[1] == head[1] && t[2] == head[2] && t[3] == head[3];
  }

  /** Every three input bytes, or a final one or two, become four output characters. */
  lemma {:induction false} EncodeLength(s: seq<byte>)
    ensures |Encode(s)| == 4 * ((|s| + 2) / 3)
    decreases |s|
  {
    if |s| >= 3 {
      EncodeLength(s[3..]);
    }
  }

  /** The encoding uses only the alphabet and `=`, so it needs no escaping in JSON text. */
  lemma {:induction false} EncodeAlphabet(s: seq<byte>)
    ensures forall i :: 0 <= i < |Encode(s)| ==> IsEncodingByte(Encode(s)[i])
    decreases |s|
  {
    if |s| >= 3 {
      EncodeAlphabet(s[3..]);
      var t := Encode(s);
      var head := t[..4];
      assert t == head + Encode(s[3..]);
      forall i | 0 <= i < |t| ensures IsEncodingByte(t[i]) {
        if i >= 4 {
          assert t[i] == Encode(s[3..])[i - 4];
        } else {
          SymbolRoundTrip(s[0] / 4);
          SymbolRoundTrip((s[0] % 4) * 16 + s[1] / 16);
          SymbolRoundTrip((s[1] % 16) * 4 + s[2] / 64);
          SymbolRoundTrip(s[2] % 64);
        }
      }
    } else if |s| > 0 {
      SymbolRoundTrip(s[0] / 4);
      if |s| == 1 {
        SymbolRoundTrip((s[0] % 4) * 16);
      } else {
        SymbolRoundTrip((s[0] % 4) * 16 + s[1] / 16);
        SymbolRoundTrip((s[1] % 16) * 4);
      }
    }
  }
}
