/** The request-response message codec: a type byte, then length-prefixed and fixed-width fields.
    Keys, signatures, requests and responses bring serializers of their own. */
module MessageCodec {
  import opened Bytes
  import opened Leaves

  type u64 = n: nat | n < U64_LIMIT

  /** A 32-byte `blake3` hash. */
  type Hash = h: seq<byte> | |h| == 32 witness seq(32, _ => 0)

  /** A foreign serializer; either direction may fail. */
  datatype Codec<!T> = Codec(encode: T -> Option<seq<byte>>, decode: seq<byte> -> Option<T>)

  /** Whatever it encodes, it decodes. */
  ghost predicate RoundTrips<T(!new)>(c: Codec<T>)
  {
    forall x :: c.encode(x).Some? ==> c.decode(c.encode(x).value) == Some(x)
  }

  /** Whatever it decodes, it encodes to the same bytes. */
  ghost predicate Canonical<T(!new)>(c: Codec<T>)
  {
    forall b :: c.decode(b).Some? ==> c.encode(c.decode(b).value) == Some(b)
  }

  datatype Codecs<!K, !S, !R, !P> = Codecs(
    key: Codec<K>, signature: Codec<S>, request: Codec<R>, response: Codec<P>)

  datatype RequestMessage<K, S, R> = RequestMessage(key: K, signature: S, timestamp: u64, request: R)

  datatype ResponseMessage<P> = ResponseMessage(hash: Hash, response: P)

  datatype Message<K, S, R, P> = Request(r: RequestMessage<K, S, R>) | Response(p: ResponseMessage<P>)

  // ---- fields ----

  /** `write_length_prefixed`: refused when the length does not fit 32 bits. */
  function Prefixed(v: seq<byte>): (r: Option<seq<byte>>)
  {
    if |v| >= U32_LIMIT then None else Some(ToLe(|v|, 4) + v)
  }

  /** `read_length_prefixed`: the field and what is left after it. */
  function Unprefix(b: seq<byte>): (r: Option<(seq<byte>, seq<byte>)>)
  {
    if |b| < 4 then None
    else
      var n := FromLe(b[..4]);
      if |b| < 4 + n then None else Some((b[4..4 + n], b[4 + n..]))
  }

  lemma PrefixRoundTrip(v: seq<byte>, rest: seq<byte>)
    requires |v| < U32_LIMIT
    ensures Unprefix(Prefixed(v).value + rest) == Some((v, rest))
  {
    var b := Prefixed(v).value + rest;
    WordLimits();
    LeRoundTrip(|v|, 4);
    assert b[..4] == ToLe(|v|, 4);
    assert b[4..4 + |v|] == v && b[4 + |v|..] == rest;
  }

  lemma UnprefixRebuilds(b: seq<byte>)
    requires Unprefix(b).Some?
    ensures var (v, rest) := Unprefix(b).value;
            |v| < U32_LIMIT && Prefixed(v).value + rest == b
  {
    FromLeBounded(b[..4]);
    WordLimits();
    LeOfFromLe(b[..4]);
    var n := FromLe(b[..4]);
    assert b == b[..4] + b[4..4 + n] + b[4 + n..];
  }

  // ---- messages ----

  function EncodeRequest<K, S, R, P>(c: Codecs<K, S, R, P>, m: RequestMessage<K, S, R>): (r: Option<seq<byte>>)
  {
    var k, s, q := c.key.encode(m.key), c.signature.encode(m.signature), c.request.encode(m.request);
    if k.None? || s.None? || q.None? || |k.value| >= U32_LIMIT || |s.value| >= U32_LIMIT then None
    else Some(Prefixed(k.value).value + (Prefixed(s.value).value + (ToLe(m.timestamp, 8) + q.value)))
  }

  function DecodeRequest<K, S, R, P>(c: Codecs<K, S, R, P>, b: seq<byte>): (r: Option<RequestMessage<K, S, R>>)
  {
    var first := Unprefix(b);
    if first.None? then None
    else
      var key := c.key.decode(first.value.0);
      var second := Unprefix(first.value.1);
      if key.None? || second.None? then None
      else
        var signature := c.signature.decode(second.value.0);
        var tail := DecodeTail(c.request, second.value.1);
        if signature.None? || tail.None? then None
        else Some(RequestMessage(key.value, signature.value, tail.value.0, tail.value.1))
  }

  /** The timestamp, then the request to the end of the buffer. */
  function DecodeTail<R>(c: Codec<R>, b: seq<byte>): (r: Option<(u64, R)>)
  {
    if |b| < 8 then None
    else
      FromLeBounded(b[..8]); WordLimits();
      var q := c.decode(b[8..]);
      if q.None? then None else Some((FromLe(b[..8]), q.value))
  }

  function EncodeResponse<P>(c: Codec<P>, m: ResponseMessage<P>): (r: Option<seq<byte>>)
  {
    var p := c.encode(m.response);
    if p.None? then None else Some(m.hash + p.value)
  }

  function DecodeResponse<P>(c: Codec<P>, b: seq<byte>): (r: Option<ResponseMessage<P>>)
  {
    if |b| < 32 then None
    else
      var p := c.decode(b[32..]);
      if p.None? then None else Some(ResponseMessage(b[..32], p.value))
  }

  function Encoding<K, S, R, P>(c: Codecs<K, S, R, P>, m: Message<K, S, R, P>): (r: Option<seq<byte>>)
  {
    match m
    case Request(q) => (var b := EncodeRequest(c, q); if b.None? then None else Some([0] + b.value))
    case Response(p) => (var b := EncodeResponse(c.response, p); if b.None? then None else Some([1] + b.value))
  }

  function Decoding<K, S, R, P>(c: Codecs<K, S, R, P>, b: seq<byte>): (r: Option<Message<K, S, R, P>>)
  {
    if |b| == 0 then None
    else if b[0] == 0 then
      var q := DecodeRequest(c, b[1..]);
      if q.None? then None else Some(Request(q.value))
    else if b[0] == 1 then
      var p := DecodeResponse(c.response, b[1..]);
      if p.None? then None else Some(Response(p.value))
    else None
  }

  // ---- the writer and the reader ----

  /** `std::io::Cursor` over a byte slice. */
  class Cursor {
    const bytes: seq<byte>
    var position: nat

    constructor (bytes: seq<byte>)
      ensures this.bytes == bytes && Valid() && Left() == bytes
    {
      this.bytes := bytes;
      position := 0;
    }

    ghost predicate Valid()
      reads this
    {
      position <= |bytes|
    }

    /** The bytes not yet read. */
    function Left(): seq<byte>
      requires Valid()
      reads this
    {
      bytes[position..]
    }

    /** Read `n` bytes, or fail when fewer are left. */
    method ReadExact(n: nat) returns (r: Option<seq<byte>>)
      requires Valid()
      modifies this
      ensures Valid()
      ensures n <= |old(Left())| ==> r == Some(old(Left())[..n]) && Left() == old(Left())[n..]
      ensures n > |old(Left())| ==> r == None
    {
      if position + n > |bytes| {
        return None;
      }
      assert Left()[..n] == bytes[position..position + n] && Left()[n..] == bytes[position + n..];
      r := Some(bytes[position..position + n]);
      position := position + n;
    }

    method ReadLengthPrefixed() returns (r: Option<seq<byte>>)
      requires Valid()
      modifies this
      ensures Valid()
      ensures Unprefix(old(Left())).Some? ==>
                r == Some(Unprefix(old(Left())).value.0) && Left() == Unprefix(old(Left())).value.1
      ensures Unprefix(old(Left())).None? ==> r == None
    {
      ghost var before := Left();
      var length := ReadExact(4);
      if length.None? {
        return None;
      }
      var n := FromLe(length.value);
      assert Left() == before[4..];
      r := ReadExact(n);
      if r.Some? {
        assert before[4..][..n] == before[4..4 + n] && before[4..][n..] == before[4 + n..];
      }
    }

    method ReadToEnd() returns (r: seq<byte>)
      requires Valid()
      modifies this
      ensures Valid() && r == old(Left()) && Left() == []
    {
      r := bytes[position..];
      position := |bytes|;
    }
  }

  /** `RequestMessage::to_bytes`. */
  method WriteRequest<K, S, R, P>(c: Codecs<K, S, R, P>, m: RequestMessage<K, S, R>) returns (r: Option<seq<byte>>)
    ensures r == EncodeRequest(c, m)
  {
    var key, signature, request := c.key.encode(m.key), c.signature.encode(m.signature), c.request.encode(m.request);
    if key.None? || signature.None? || request.None? || |key.value| >= U32_LIMIT || |signature.value| >= U32_LIMIT {
      return None;
    }
    var bytes := ToLe(|key.value|, 4) + key.value;
    ghost var first := bytes;
    bytes := bytes + (ToLe(|signature.value|, 4) + signature.value);
    bytes := bytes + ToLe(m.timestamp, 8);
    bytes := bytes + request.value;
    ghost var second := ToLe(|signature.value|, 4) + signature.value;
    assert bytes == first + (second + (ToLe(m.timestamp, 8) + request.value));
    return Some(bytes);
  }

  /** `RequestMessage::from_bytes`. */
  method ReadRequest<K, S, R, P>(c: Codecs<K, S, R, P>, b: seq<byte>) returns (r: Option<RequestMessage<K, S, R>>)
    ensures r == DecodeRequest(c, b)
  {
    var cursor := new Cursor(b);
    var kb := cursor.ReadLengthPrefixed();
    if kb.None? {
      return None;
    }
    var key := c.key.decode(kb.value);
    if key.None? {
      return None;
    }
    var sb := cursor.ReadLengthPrefixed();
    if sb.None? {
      return None;
    }
    var signature := c.signature.decode(sb.value);
    if signature.None? {
      return None;
    }
    var tail := ReadTail(c.request, cursor);
    if tail.None? {
      return None;
    }
    return Some(RequestMessage(key.value, signature.value, tail.value.0, tail.value.1));
  }

  method ReadTail<R>(c: Codec<R>, cursor: Cursor) returns (r: Option<(u64, R)>)
    requires cursor.Valid()
    modifies cursor
    ensures cursor.Valid() && r == DecodeTail(c, old(cursor.Left()))
  {
    var stamp := cursor.ReadExact(8);
    if stamp.None? {
      return None;
    }
    FromLeBounded(stamp.value);
    WordLimits();
    var rest := cursor.ReadToEnd();
    var request := c.decode(rest);
    if request.None? {
      return None;
    }
    return Some((FromLe(stamp.value), request.value));
  }

  /** `ResponseMessage::from_bytes`. */
  method ReadResponse<P>(c: Codec<P>, b: seq<byte>) returns (r: Option<ResponseMessage<P>>)
    ensures r == DecodeResponse(c, b)
  {
    var cursor := new Cursor(b);
    var hash := cursor.ReadExact(32);
    if hash.None? {
      return None;
    }
    var rest := cursor.ReadToEnd();
    var response := c.decode(rest);
    if response.None? {
      return None;
    }
    return Some(ResponseMessage(hash.value, response.value));
  }

  /** `Message::to_bytes`: the type byte, then the content. */
  method WriteMessage<K, S, R, P>(c: Codecs<K, S, R, P>, m: Message<K, S, R, P>) returns (r: Option<seq<byte>>)
    ensures r == Encoding(c, m)
  {
    match m {
      case Request(q) =>
        var body := WriteRequest(c, q);
        if body.None? {
          return None;
        }
        return Some([0] + body.value);
      case Response(p) =>
        var body := c.response.encode(p.response);
        if body.None? {
          return None;
        }
        return Some([1] + (p.hash + body.value));
    }
  }

  /** `Message::from_bytes`: any other type byte is an error. */
  method ReadMessage<K, S, R, P>(c: Codecs<K, S, R, P>, b: seq<byte>) returns (r: Option<Message<K, S, R, P>>)
    ensures r == Decoding(c, b)
  {
    if |b| == 0 {
      return None;
    }
    var kind, rest := b[0], b[1..];
    if kind == 0 {
      var request := ReadRequest(c, rest);
      if request.None? {
        return None;
      }
      return Some(Request(request.value));
    } else if kind == 1 {
      var response := ReadResponse(c.response, rest);
      if response.None? {
        return None;
      }
      return Some(Response(response.value));
    } else {
      return None;
    }
  }

  // ---- the theorems ----

  lemma RequestRoundTrip<K(!new), S(!new), R(!new), P(!new)>(c: Codecs<K, S, R, P>, m: RequestMessage<K, S, R>)
    requires RoundTrips(c.key) && RoundTrips(c.signature) && RoundTrips(c.request)
    requires EncodeRequest(c, m).Some?
    ensures DecodeRequest(c, EncodeRequest(c, m).value) == Some(m)
  {
    var k, s, q := c.key.encode(m.key).value, c.signature.encode(m.signature).value, c.request.encode(m.request).value;
    var tail := ToLe(m.timestamp, 8) + q;
    PrefixRoundTrip(k, Prefixed(s).value + tail);
    PrefixRoundTrip(s, tail);
    WordLimits();
    LeRoundTrip(m.timestamp, 8);
    assert tail[..8] == ToLe(m.timestamp, 8) && tail[8..] == q;
  }

  /** Decoding any encoded message returns it. */
  lemma RoundTrip<K(!new), S(!new), R(!new), P(!new)>(c: Codecs<K, S, R, P>, m: Message<K, S, R, P>)
    requires RoundTrips(c.key) && RoundTrips(c.signature) && RoundTrips(c.request) && RoundTrips(c.response)
    requires Encoding(c, m).Some?
    ensures Decoding(c, Encoding(c, m).value) == Some(m)
  {
    var b := Encoding(c, m).value;
    match m {
      case Request(q) =>
        RequestRoundTrip(c, q);
        assert b[1..] == EncodeRequest(c, q).value;
      case Response(p) =>
        var body := EncodeResponse(c.response, p).value;
        assert b[1..] == body && body[..32] == p.hash && body[32..] == c.response.encode(p.response).value;
    }
  }

  /** A length-prefixed field inside a buffer. */
  predicate FieldAt(b: seq<byte>, at: nat, v: seq<byte>)
  {
    at + 4 + |v| <= |b| && FromLe(b[at..at + 4]) == |v| && b[at + 4..at + 4 + |v|] == v
  }

  lemma PrefixedAt(b: seq<byte>, at: nat, v: seq<byte>, rest: seq<byte>)
    requires at <= |b| && |v| < U32_LIMIT && b[at..] == Prefixed(v).value + rest
    ensures FieldAt(b, at, v) && b[at + 4 + |v|..] == rest
  {
    WordLimits();
    LeRoundTrip(|v|, 4);
    assert Prefixed(v).value + rest == ToLe(|v|, 4) + (v + rest);
    PartsFrom(b, at, ToLe(|v|, 4), v + rest);
    PartsFrom(b, at + 4, v, rest);
  }

  /** Where each field of an encoded request stands: type byte 0; the key's length in four bytes and the
      key; the same for the signature; the timestamp in eight bytes; the request to the end. */
  lemma RequestLayout<K(!new), S(!new), R(!new), P(!new)>(c: Codecs<K, S, R, P>, m: RequestMessage<K, S, R>)
    requires Encoding(c, Request(m)).Some?
    ensures c.key.encode(m.key).Some? && c.signature.encode(m.signature).Some? && c.request.encode(m.request).Some?
    ensures var b := Encoding(c, Request(m)).value;
            var k, s, q := c.key.encode(m.key).value, c.signature.encode(m.signature).value, c.request.encode(m.request).value;
            var stamp := 9 + |k| + |s|;
            && |b| == stamp + 8 + |q| && b[0] == 0
            && FieldAt(b, 1, k) && FieldAt(b, 5 + |k|, s)
            && FromLe(b[stamp..stamp + 8]) == m.timestamp && b[stamp + 8..] == q
  {
    var b := Encoding(c, Request(m)).value;
    var k, s, q := c.key.encode(m.key).value, c.signature.encode(m.signature).value, c.request.encode(m.request).value;
    var tail := ToLe(m.timestamp, 8) + q;
    PrefixedAt(b, 1, k, Prefixed(s).value + tail);
    PrefixedAt(b, 5 + |k|, s, tail);
    WordLimits();
    LeRoundTrip(m.timestamp, 8);
    PartsFrom(b, 9 + |k| + |s|, ToLe(m.timestamp, 8), q);
  }

  /** And of a response: type byte 1, the hash, the response to the end. */
  lemma ResponseLayout<K(!new), S(!new), R(!new), P(!new)>(c: Codecs<K, S, R, P>, m: ResponseMessage<P>)
    requires Encoding(c, Response(m)).Some?
    ensures c.response.encode(m.response).Some?
    ensures var b, p := Encoding(c, Response(m)).value, c.response.encode(m.response).value;
            |b| == 33 + |p| && b[0] == 1 && b[1..33] == m.hash && b[33..] == p
  {
    assert Encoding(c, Response(m)).value == [1] + m.hash + c.response.encode(m.response).value;
  }

  /** Distinct messages never share an encoding. */
  lemma EncodingInjective<K(!new), S(!new), R(!new), P(!new)>(
    c: Codecs<K, S, R, P>, m: Message<K, S, R, P>, n: Message<K, S, R, P>)
    requires RoundTrips(c.key) && RoundTrips(c.signature) && RoundTrips(c.request) && RoundTrips(c.response)
    requires Encoding(c, m).Some? && Encoding(c, m) == Encoding(c, n)
    ensures m == n
  {
    RoundTrip(c, m);
    RoundTrip(c, n);
  }

  lemma RequestReEncodes<K(!new), S(!new), R(!new), P(!new)>(c: Codecs<K, S, R, P>, b: seq<byte>)
    requires Canonical(c.key) && Canonical(c.signature) && Canonical(c.request)
    requires DecodeRequest(c, b).Some?
    ensures EncodeRequest(c, DecodeRequest(c, b).value) == Some(b)
  {
    UnprefixRebuilds(b);
    var (kb, b1) := Unprefix(b).value;
    UnprefixRebuilds(b1);
    var (sb, b2) := Unprefix(b1).value;
    LeOfFromLe(b2[..8]);
    assert b2 == b2[..8] + b2[8..];
  }

  /** Over canonical serializers the decoder accepts nothing but encodings. */
  lemma DecodedReEncodes<K(!new), S(!new), R(!new), P(!new)>(c: Codecs<K, S, R, P>, b: seq<byte>)
    requires Canonical(c.key) && Canonical(c.signature) && Canonical(c.request) && Canonical(c.response)
    requires Decoding(c, b).Some?
    ensures Encoding(c, Decoding(c, b).value) == Some(b)
  {
    assert b == [b[0]] + b[1..];
    if b[0] == 0 {
      RequestReEncodes(c, b[1..]);
    } else {
      assert b[1..] == b[1..][..32] + b[1..][32..];
    }
  }

  /** Over serializers that are both, it accepts exactly them. */
  lemma DecodesIffEncoded<K(!new), S(!new), R(!new), P(!new)>(c: Codecs<K, S, R, P>, b: seq<byte>)
    requires RoundTrips(c.key) && RoundTrips(c.signature) && RoundTrips(c.request) && RoundTrips(c.response)
    requires Canonical(c.key) && Canonical(c.signature) && Canonical(c.request) && Canonical(c.response)
    ensures Decoding(c, b).Some? <==> exists m :: Encoding(c, m) == Some(b)
  {
    if Decoding(c, b).Some? {
      DecodedReEncodes(c, b);
    }
    forall m | Encoding(c, m) == Some(b) ensures Decoding(c, b).Some? {
      RoundTrip(c, m);
    }
  }

  /** A request has an encoding exactly when its fields have and key and signature fit a 32-bit length; a
      response exactly when its content has. */
  lemma EncodesIffFits<K(!new), S(!new), R(!new), P(!new)>(c: Codecs<K, S, R, P>, m: Message<K, S, R, P>)
    ensures Encoding(c, m).Some? <==>
            match m {
              case Request(q) =>
                && c.key.encode(q.key).Some? && |c.key.encode(q.key).value| < U32_LIMIT
                && c.signature.encode(q.signature).Some? && |c.signature.encode(q.signature).value| < U32_LIMIT
                && c.request.encode(q.request).Some?
              case Response(p) => c.response.encode(p.response).Some?
            }
  {}

  /** What a request's signature covers: the request bytes followed by the timestamp. */
  function SignedContent(request: seq<byte>, timestamp: u64): seq<byte>
  {
    request + ToLe(timestamp, 8)
  }

  /** The request comes first and the timestamp fills the last eight bytes. */
  lemma SignedLayout(request: seq<byte>, timestamp: u64)
    ensures var x := SignedContent(request, timestamp);
            |x| == |request| + 8 && x[..|request|] == request && FromLe(x[|request|..]) == timestamp
  {
    WordLimits();
    LeRoundTrip(timestamp, 8);
  }

  /** No two pairs of request bytes and timestamp are signed alike. */
  lemma SignedContentInjective(a: seq<byte>, s: u64, b: seq<byte>, t: u64)
    requires SignedContent(a, s) == SignedContent(b, t)
    ensures a == b && s == t
  {
    var x := SignedContent(a, s);
    var n := |x| - 8;
    assert x[..n] == a && x[n..] == ToLe(s, 8);
    assert SignedContent(b, t)[..n] == b && SignedContent(b, t)[n..] == ToLe(t, 8);
    WordLimits();
    LeRoundTrip(s, 8);
    LeRoundTrip(t, 8);
  }
}
