/** The block payload codec: transactions as length-prefixed byte strings, back to back. */
module PayloadCodec {
  import opened Bytes
  import opened Leaves

  /** `TestTransaction`: its length fits 32 bits. */
  type Transaction = t: seq<byte> | |t| < U32_LIMIT witness []

  function EncodeOne(t: Transaction): (s: seq<byte>)
  {
    ToLe(|t|, 4) + t
  }

  function Encoding(ts: seq<Transaction>): (s: seq<byte>)
  {
    if |ts| == 0 then [] else EncodeOne(ts[0]) + Encoding(ts[1..])
  }

  function Prepend(ts: seq<Transaction>, r: Option<seq<Transaction>>): Option<seq<Transaction>>
  {
    if r.None? then None else Some(ts + r.value)
  }

  lemma PrependParts(a: seq<Transaction>, b: seq<Transaction>, r: Option<seq<Transaction>>)
    ensures Prepend([], r) == r
    ensures Prepend(a, Prepend(b, r)) == Prepend(a + b, r)
  {
    if r.Some? {
      assert [] + r.value == r.value;
      assert a + (b + r.value) == a + b + r.value;
    }
  }

  /** Parse a payload; `None` is a slice out of bounds, on which the source panics. */
  function Decoding(b: seq<byte>): (r: Option<seq<Transaction>>)
  {
    if |b| == 0 then Some([])
    else if |b| < 4 then None
    else
      var n := FromLe(b[..4]);
      if |b| < 4 + n then None
      else
        FromLeBounded(b[..4]); WordLimits();
        Prepend([b[4..4 + n]], Decoding(b[4 + n..]))
  }

  /** One step of the parse, seen from position `i` of a longer buffer. */
  lemma DecodingAt(b: seq<byte>, i: nat)
    requires i < |b|
    ensures i + 4 > |b| ==> Decoding(b[i..]) == None
    ensures i + 4 <= |b| ==>
              var n := FromLe(b[i..i + 4]);
              && n < U32_LIMIT
              && Decoding(b[i..]) ==
                 if i + 4 + n > |b| then None
                 else Prepend([b[i + 4..i + 4 + n]], Decoding(b[i + 4 + n..]))
  {
    var left := b[i..];
    if i + 4 <= |b| {
      assert left[..4] == b[i..i + 4];
      FromLeBounded(b[i..i + 4]);
      WordLimits();
      var n := FromLe(b[i..i + 4]);
      if i + 4 + n <= |b| {
        assert left[4..4 + n] == b[i + 4..i + 4 + n] && left[4 + n..] == b[i + 4 + n..];
      }
    }
  }

  /** `TestTransaction::encode`: extend one buffer, transaction by transaction. */
  method Encode(ts: seq<Transaction>) returns (encoded: seq<byte>)
    ensures encoded == Encoding(ts)
  {
    encoded := [];
    var i := 0;
    assert ts[0..] == ts;
    while i < |ts|
      invariant 0 <= i <= |ts|
      invariant encoded + Encoding(ts[i..]) == Encoding(ts)
    {
      assert ts[i..][1..] == ts[i + 1..];
      encoded := encoded + ToLe(|ts[i]|, 4);
      encoded := encoded + ts[i];
      i := i + 1;
    }
  }

  /** `from_bytes`: walk an index over the buffer, pushing what each length prefix delimits. */
  method Decode(b: seq<byte>) returns (r: Option<seq<Transaction>>)
    ensures r == Decoding(b)
  {
    var transactions: seq<Transaction> := [];
    var current := 0;
    assert b[0..] == b;
    PrependParts([], [], Decoding(b));
    while current < |b|
      invariant 0 <= current <= |b|
      invariant Decoding(b) == Prepend(transactions, Decoding(b[current..]))
    {
      DecodingAt(b, current);
      var start := current + 4;
      if start > |b| {
        return None;
      }
      var next := start + FromLe(b[current..start]);
      if next > |b| {
        return None;
      }
      PrependParts(transactions, [b[start..next]], Decoding(b[next..]));
      transactions := transactions + [b[start..next]];
      current := next;
    }
    assert transactions + [] == transactions;
    return Some(transactions);
  }

  /** One encoded transaction in front of any bytes is parsed off exactly. */
  lemma DecodesFirst(t: Transaction, rest: seq<byte>)
    ensures Decoding(EncodeOne(t) + rest) == Prepend([t], Decoding(rest))
  {
    var b := EncodeOne(t) + rest;
    WordLimits();
    LeRoundTrip(|t|, 4);
    assert b[..4] == ToLe(|t|, 4);
    assert b[4..4 + |t|] == t;
    assert b[4 + |t|..] == rest;
  }

  /** Every transaction list survives the round trip, so no slice ever leaves an encoder's output. */
  lemma {:induction false} RoundTrip(ts: seq<Transaction>)
    ensures Decoding(Encoding(ts)) == Some(ts)
  {
    if |ts| > 0 {
      DecodesFirst(ts[0], Encoding(ts[1..]));
      RoundTrip(ts[1..]);
      assert [ts[0]] + ts[1..] == ts;
    } else {
      assert ts == [];
    }
  }

  /** Where transaction `i` begins. */
  function Offset(ts: seq<Transaction>, i: nat): nat
    requires i <= |ts|
  {
    if i == 0 then 0 else Offset(ts, i - 1) + 4 + |ts[i - 1]|
  }

  /** From there on stands the encoding of what is left. */
  lemma {:induction false} FromOffset(ts: seq<Transaction>, i: nat)
    requires i <= |ts|
    ensures Offset(ts, i) <= |Encoding(ts)| && Encoding(ts)[Offset(ts, i)..] == Encoding(ts[i..])
  {
    if i == 0 {
      assert ts[0..] == ts;
    } else {
      FromOffset(ts, i - 1);
      OneAt(ts, i - 1);
    }
  }

  /** The transaction at an offset and the rest behind it. */
  lemma OneAt(ts: seq<Transaction>, i: nat)
    requires i < |ts| && Offset(ts, i) <= |Encoding(ts)| && Encoding(ts)[Offset(ts, i)..] == Encoding(ts[i..])
    ensures var b, at, t := Encoding(ts), Offset(ts, i), ts[i];
            && at + 4 + |t| <= |b|
            && b[at..at + 4] == ToLe(|t|, 4) && b[at + 4..at + 4 + |t|] == t
            && b[at + 4 + |t|..] == Encoding(ts[i + 1..])
  {
    var b, at, t := Encoding(ts), Offset(ts, i), ts[i];
    var rest := Encoding(ts[i + 1..]);
    assert ts[i..][1..] == ts[i + 1..];
    assert b[at..] == ToLe(|t|, 4) + (t + rest);
    PartsFrom(b, at, ToLe(|t|, 4), t + rest);
    PartsFrom(b, at + 4, t, rest);
  }

  /** Each transaction stands behind its length in four little-endian bytes, right after the one before,
      and nothing follows the last. */
  lemma Layout(ts: seq<Transaction>, i: nat)
    requires i < |ts|
    ensures var b, at := Encoding(ts), Offset(ts, i);
            && at + 4 + |ts[i]| <= |b| == Offset(ts, |ts|)
            && FromLe(b[at..at + 4]) == |ts[i]| && b[at + 4..at + 4 + |ts[i]|] == ts[i]
  {
    FromOffset(ts, i);
    OneAt(ts, i);
    WordLimits();
    LeRoundTrip(|ts[i]|, 4);
    FromOffset(ts, |ts|);
    assert Encoding(ts[|ts|..]) == [];
  }

  /** A parsed first transaction, encoded again, gives the bytes it came from. */
  lemma FirstReEncodes(b: seq<byte>)
    requires |b| >= 4 && |b| >= 4 + FromLe(b[..4]) && FromLe(b[..4]) < U32_LIMIT
    ensures var n := FromLe(b[..4]); EncodeOne(b[4..4 + n]) + b[4 + n..] == b
  {
    var n := FromLe(b[..4]);
    LeOfFromLe(b[..4]);
    assert EncodeOne(b[4..4 + n]) == b[..4] + b[4..4 + n];
  }

  /** Re-encoding whatever decodes gives the same bytes back. */
  lemma {:induction false} ReEncodes(b: seq<byte>)
    requires Decoding(b).Some?
    ensures Encoding(Decoding(b).value) == b
  {
    if |b| > 0 {
      var n := FromLe(b[..4]);
      FromLeBounded(b[..4]);
      WordLimits();
      var first: Transaction := b[4..4 + n];
      var rest: seq<Transaction> := Decoding(b[4 + n..]).value;
      ReEncodes(b[4 + n..]);
      FirstReEncodes(b);
      assert ([first] + rest)[1..] == rest;
      assert Encoding([first] + rest) == EncodeOne(first) + Encoding(rest);
    }
  }

  /** Decoding succeeds on exactly the encoder's outputs. */
  lemma DecodesIffEncoded(b: seq<byte>)
    ensures Decoding(b).Some? <==> exists ts :: Encoding(ts) == b
  {
    if Decoding(b).Some? {
      ReEncodes(b);
    }
    forall ts | Encoding(ts) == b ensures Decoding(b).Some? {
      RoundTrip(ts);
    }
  }
}
