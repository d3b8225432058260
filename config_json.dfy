/**
 * The ArgoCD cluster credential record (Go's `ClusterConfig` with its nested
 * `TLSClientConfig`) and its JSON text, as `json.Marshal` writes it, together
 * with a reader that recovers the record from that text.
 */
module ConfigJson {
  import opened Wrappers
  import opened Bytes

  /**
   * `{bearerToken, tlsClientConfig: {caData}}`. Go strings are byte sequences,
   * so both fields are kept as the bytes of the Go string.
   */
  datatype ClusterConfig = ClusterConfig(bearerToken: seq<byte>, caData: seq<byte>)

  const Quote: byte := 34
  const Backslash: byte := 92

  /** One byte of string contents: `"` and `\` get a backslash before them. */
  function EscapeByte(b: byte): seq<byte>
  {
    if b == Quote || b == Backslash then [Backslash, b] else [b]
  }

  /** String contents with `"` and `\` escaped by a backslash. */
  function Escape(s: seq<byte>): seq<byte>
  {
    if s == [] then [] else EscapeByte(s[0]) + Escape(s[1..])
  }

  /** A JSON string literal. */
  function JsonString(s: seq<byte>): seq<byte>
  {
    [Quote] + Escape(s) + [Quote]
  }

  /** The text around the two string values, as ASCII bytes. */
  // {"bearerToken":
  const Opening: seq<byte> := [123, 34, 98, 101, 97, 114, 101, 114, 84, 111, 107, 101, 110, 34, 58]
  // ,"tlsClientConfig":{"caData":
  const Between: seq<byte> := [44, 34, 116, 108, 115, 67, 108, 105, 101, 110, 116, 67, 111, 110, 102, 105, 103, 34, 58, 123, 34, 99, 97, 68, 97, 116, 97, 34, 58]
  // }}
  const Closing: seq<byte> := [125, 125]

  /** `json.Marshal(cluster.Config)`: the fields in declaration order, no white space. */
  function Marshal(c: ClusterConfig): (r: seq<byte>)
    ensures |Opening| + |Closing| <= |r|
    ensures r[..|Opening|] == Opening && r[|r| - |Closing|..] == Closing
  {
    Opening + (JsonString(c.bearerToken) + (Between + (JsonString(c.caData) + Closing)))
  }

  /** Reads the body of a string literal up to its closing quote; gives the contents and what follows. */
  function StringBody(t: seq<byte>): Option<(seq<byte>, seq<byte>)>
  {
    if t == [] then None
    else if t[0] == Quote then Some(([], t[1..]))
    else if t[0] == Backslash then
      if |t| < 2 || !(t[1] == Quote || t[1] == Backslash) then None
      else match StringBody(t[2..])
        case Some((body, rest)) => Some(([t[1]] + body, rest))
        case None => None
    else match StringBody(t[1..])
      case Some((body, rest)) => Some(([t[0]] + body, rest))
      case None => None
  }

  /** Reads a string literal at the start of `t`. */
  function ReadString(t: seq<byte>): Option<(seq<byte>, seq<byte>)>
  {
    if t == [] || t[0] != Quote then None else StringBody(t[1..])
  }

  /** What follows `prefix` in `t`, if `t` starts with it. */
  function After(prefix: seq<byte>, t: seq<byte>): Option<seq<byte>>
  {
    if prefix <= t then Some(t[|prefix|..]) else None
  }

  /** Reads back the record from text of the shape `Marshal` writes. */
  function Unmarshal(t: seq<byte>): Option<ClusterConfig>
  {
    match After(Opening, t)
    case None => None
    case Some(rest) => UnmarshalToken(rest)
  }

  function UnmarshalToken(t: seq<byte>): Option<ClusterConfig>
  {
    match ReadString(t)
    case None => None
    case Some((token, rest)) =>
      match After(Between, rest)
      case None => None
      case Some(rest') => UnmarshalCaData(token, rest')
  }

  function UnmarshalCaData(token: seq<byte>, t: seq<byte>): Option<ClusterConfig>
  {
    match ReadString(t)
    case None => None
    case Some((ca, rest)) => if rest == Closing then Some(ClusterConfig(token, ca)) else None
  }

  lemma {:induction false} StringBodyEscape(s: seq<byte>, rest: seq<byte>)
    ensures StringBody(Escape(s) + [Quote] + rest) == Some((s, rest))
    decreases |s|
  {
    if s == [] {
      assert Escape(s) + [Quote] + rest == [Quote] + rest;
    } else {
      StringBodyEscape(s[1..], rest);
      var tail := Escape(s[1..]) + [Quote] + rest;
      assert Escape(s) + [Quote] + rest == EscapeByte(s[0]) + tail;
      StringBodyByte(s[0], tail, s[1..], rest);
      assert s == [s[0]] + s[1..];
    }
  }

  /** An escaped byte in front of string contents is read back as that byte. */
  lemma StringBodyByte(b: byte, tail: seq<byte>, body: seq<byte>, rest: seq<byte>)
    requires StringBody(tail) == Some((body, rest))
    ensures StringBody(EscapeByte(b) + tail) == Some(([b] + body, rest))
  {
    var t := EscapeByte(b) + tail;
    if b == Quote || b == Backslash {
      assert t[2..] == tail;
    } else {
      assert t[1..] == tail;
    }
  }

  /** The string literal `JsonString(s)` reads back as `s`, whatever follows it. */
  lemma ReadJsonString(s: seq<byte>, rest: seq<byte>)
    ensures ReadString(JsonString(s) + rest) == Some((s, rest))
  {
    var t := JsonString(s) + rest;
    assert t == [Quote] + (Escape(s) + [Quote] + rest);
    assert t[1..] == Escape(s) + [Quote] + rest;
    StringBodyEscape(s, rest);
  }

  lemma UnmarshalCaDataOf(token: seq<byte>, ca: seq<byte>)
    ensures UnmarshalCaData(token, JsonString(ca) + Closing) == Some(ClusterConfig(token, ca))
  {
    ReadJsonString(ca, Closing);
  }

  lemma UnmarshalTokenOf(token: seq<byte>, ca: seq<byte>)
    ensures UnmarshalToken(JsonString(token) + (Between + (JsonString(ca) + Closing))) == Some(ClusterConfig(token, ca))
  {
    var t3 := JsonString(ca) + Closing;
    ReadJsonString(token, Between + t3);
    assert After(Between, Between + t3) == Some(t3);
    UnmarshalCaDataOf(token, ca);
  }

  /** The credential blob is parseable and holds exactly the token and the CA data it was made from. */
  lemma UnmarshalMarshal(c: ClusterConfig)
    ensures Unmarshal(Marshal(c)) == Some(c)
  {
    var t1 := JsonString(c.bearerToken) + (Between + (JsonString(c.caData) + Closing));
    UnmarshalTokenOf(c.bearerToken, c.caData);
    assert After(Opening, Opening + t1) == Some(t1);
  }
}
