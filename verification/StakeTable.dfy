/** The vector-based stake table: three snapshots of parallel vectors that share one append-only
    position index, proved to behave like three plain maps. */
module StakeTables {
  import opened Leaves

  type Key = nat

  const U256_LIMIT: nat := 0x1_0000000000000000_0000000000000000_0000000000000000_0000000000000000

  datatype Version = Head | EpochStart | LastEpochStart | BlockNum(number: nat)

  datatype Error = ExistingKey | KeyNotFound | InsufficientFund | SnapshotUnsupported

  datatype Result<+T> = Ok(value: T) | Err(error: Error)

  /** `StakeTableSnapshot`: parallel vectors of keys, auxiliary keys and amounts. */
  datatype Snapshot = Snapshot(keys: seq<Key>, aux: seq<nat>, amounts: seq<nat>)

  // ---- the plain-map view ----

  datatype Stake = Stake(amount: nat, aux: nat)

  type Book = map<Key, Stake>

  /** What the table stands for: one map per snapshot. */
  datatype Books = Books(head: Book, epochStart: Book, lastEpochStart: Book)

  ghost function TotalOf(b: Book): nat
  {
    if b == map[] then 0 else
    var k :| k in b;
    b[k].amount + TotalOf(b - {k})
  }

  function BookOf(bs: Books, v: Version): Result<Book>
  {
    match v
    case Head => Ok(bs.head)
    case EpochStart => Ok(bs.epochStart)
    case LastEpochStart => Ok(bs.lastEpochStart)
    case BlockNum(_) => Err(SnapshotUnsupported)
  }

  function LookupBook(bs: Books, v: Version, k: Key): Result<Stake>
  {
    match BookOf(bs, v)
    case Err(e) => Err(e)
    case Ok(b) => if k in b then Ok(b[k]) else Err(KeyNotFound)
  }

  /** The operations, on plain maps.  A deregistered key stays, with no stake. */
  datatype Op =
    | Register(key: Key, amount: nat, aux: nat)
    | Deregister(key: Key)
    | Update(key: Key, delta: nat, negative: bool)
    | SetValue(key: Key, value: nat)
    | Advance

  function SetHead(bs: Books, k: Key, amount: nat): Books
    requires k in bs.head
  {
    bs.(head := bs.head[k := bs.head[k].(amount := amount)])
  }

  function Apply(bs: Books, op: Op): (Books, Result<nat>)
  {
    match op
    case Register(k, amount, aux) =>
      if k in bs.head then (bs, Err(ExistingKey))
      else (bs.(head := bs.head[k := Stake(amount, aux)]), Ok(0))
    case Deregister(k) =>
      if k !in bs.head then (bs, Err(KeyNotFound))
      else (SetHead(bs, k, 0), Ok(0))
    case Update(k, delta, negative) =>
      if k !in bs.head then (bs, Err(KeyNotFound))
      else if negative && delta > bs.head[k].amount then (bs, Err(InsufficientFund))
      else
        var amount := if negative then bs.head[k].amount - delta else bs.head[k].amount + delta;
        (SetHead(bs, k, amount), Ok(amount))
    case SetValue(k, value) =>
      if k !in bs.head then (bs, Err(KeyNotFound))
      else (SetHead(bs, k, value), Ok(bs.head[k].amount))
    case Advance => (Books(bs.head, bs.head, bs.epochStart), Ok(0))
  }

  lemma {:induction false} TotalSplit(b: Book, k: Key)
    requires k in b
    ensures TotalOf(b) == b[k].amount + TotalOf(b - {k})
  {
    var j :| j in b && TotalOf(b) == b[j].amount + TotalOf(b - {j});
    if j != k {
      TotalSplit(b - {j}, k);
      TotalSplit(b - {k}, j);
      assert b - {j} - {k} == b - {k} - {j};
    }
  }

  // ---- the vectors as maps ----

  predicate Aligned(s: Snapshot) { |s.keys| == |s.aux| == |s.amounts| }

  /** `bls_mapping` and the head's keys are inverse to each other. */
  predicate Indexes(index: map<Key, nat>, keys: seq<Key>)
  {
    && |index| == |keys|
    && (forall k | k in index :: index[k] < |keys| && keys[index[k]] == k)
    && (forall i | 0 <= i < |keys| :: keys[i] in index && index[keys[i]] == i)
  }

  /** A snapshot read through the shared index. */
  function BookFrom(index: map<Key, nat>, s: Snapshot): Book
    requires Aligned(s)
  {
    map k | k in index && index[k] < |s.keys| :: Stake(s.amounts[index[k]], s.aux[index[k]])
  }

  function Push(s: Snapshot, k: Key, amount: nat, aux: nat): Snapshot
  {
    Snapshot(s.keys + [k], s.aux + [aux], s.amounts + [amount])
  }

  /** A new key is appended to the index: the head gains it, no older snapshot notices. */
  lemma PushKeeps(index: map<Key, nat>, head: Snapshot, k: Key, amount: nat, aux: nat)
    requires Aligned(head) && Indexes(index, head.keys) && k !in index
    ensures var index', head' := index[k := |index|], Push(head, k, amount, aux);
            && Indexes(index', head'.keys)
            && BookFrom(index', head') == BookFrom(index, head)[k := Stake(amount, aux)]
  {}

  lemma OlderUnmoved(index: map<Key, nat>, k: Key, pos: nat, s: Snapshot)
    requires Aligned(s) && |s.keys| <= pos && k !in index
    ensures BookFrom(index[k := pos], s) == BookFrom(index, s)
  {}

  /** Overwriting one position changes one key's stake. */
  lemma SetKeeps(index: map<Key, nat>, head: Snapshot, k: Key, amount: nat)
    requires Aligned(head) && Indexes(index, head.keys) && k in index
    ensures var pos := index[k];
            var b, b' := BookFrom(index, head), BookFrom(index, head.(amounts := head.amounts[pos := amount]));
            k in b && head.amounts[pos] == b[k].amount && b' == b[k := b[k].(amount := amount)]
  {}

  /** The keys at the first `n` positions. */
  function KeysBelow(index: map<Key, nat>, n: nat): set<Key>
  {
    set k | k in index && index[k] < n
  }

  lemma {:induction false} CountBelow(index: map<Key, nat>, head: seq<Key>, n: nat)
    requires Indexes(index, head) && n <= |head|
    ensures |KeysBelow(index, n)| == n
  {
    if n > 0 {
      CountBelow(index, head, n - 1);
      assert KeysBelow(index, n) == KeysBelow(index, n - 1) + {head[n - 1]};
    } else {
      assert KeysBelow(index, n) == {};
    }
  }

  /** A snapshot whose keys begin the head's has one entry per key. */
  lemma BookSize(index: map<Key, nat>, head: seq<Key>, s: Snapshot)
    requires Aligned(s) && Indexes(index, head) && s.keys <= head
    ensures |BookFrom(index, s)| == |s.keys|
  {
    CountBelow(index, head, |s.keys|);
    assert BookFrom(index, s).Keys == KeysBelow(index, |s.keys|);
  }

  // ---- totals ----

  function Sum(s: seq<nat>): nat
  {
    if |s| == 0 then 0 else Sum(s[..|s| - 1]) + s[|s| - 1]
  }

  lemma SumPush(s: seq<nat>, x: nat)
    ensures Sum(s + [x]) == Sum(s) + x
  {}

  lemma {:induction false} SumSet(s: seq<nat>, i: nat, x: nat)
    requires i < |s|
    ensures Sum(s[i := x]) == Sum(s) - s[i] + x && s[i] <= Sum(s)
  {
    var n := |s| - 1;
    if i < n {
      SumSet(s[..n], i, x);
      assert s[i := x][..n] == s[..n][i := x];
    } else {
      assert s[i := x][..n] == s[..n];
    }
  }

  /** Adding up a snapshot's amounts is adding up its map. */
  lemma {:induction false} TotalIsSum(index: map<Key, nat>, head: seq<Key>, s: Snapshot, n: nat)
    requires Aligned(s) && Indexes(index, head) && s.keys <= head && n <= |s.keys|
    ensures TotalOf(map k | k in index && index[k] < n :: Stake(s.amounts[index[k]], s.aux[index[k]])) == Sum(s.amounts[..n])
  {
    var b: Book := map k | k in index && index[k] < n :: Stake(s.amounts[index[k]], s.aux[index[k]]);
    if n == 0 {
      assert b == map[];
    } else {
      TotalIsSum(index, head, s, n - 1);
      var before: Book := map k | k in index && index[k] < n - 1 :: Stake(s.amounts[index[k]], s.aux[index[k]]);
      TotalSplit(b, head[n - 1]);
      assert b - {head[n - 1]} == before;
      assert s.amounts[..n][..n - 1] == s.amounts[..n - 1];
    }
  }

  lemma BookTotal(index: map<Key, nat>, head: seq<Key>, s: Snapshot)
    requires Aligned(s) && Indexes(index, head) && s.keys <= head
    ensures TotalOf(BookFrom(index, s)) == Sum(s.amounts)
  {
    TotalIsSum(index, head, s, |s.keys|);
    assert s.amounts[..|s.keys|] == s.amounts;
  }

  // ---- the table ----

  class StakeTable {
    const capacity: nat
    var head: Snapshot
    var epochStart: Snapshot
    var lastEpochStart: Snapshot
    var headTotal: nat
    var epochStartTotal: nat
    var lastEpochStartTotal: nat
    var index: map<Key, nat>

    constructor (capacity: nat)
      ensures Valid() && Model() == Books(map[], map[], map[]) && this.capacity == capacity
    {
      this.capacity := capacity;
      head, epochStart, lastEpochStart := Snapshot([], [], []), Snapshot([], [], []), Snapshot([], [], []);
      headTotal, epochStartTotal, lastEpochStartTotal := 0, 0, 0;
      index := map[];
    }

    /** The index is right for the head; the older snapshots' keys are prefixes of it. */
    ghost predicate Valid()
      reads this
    {
      && Aligned(head) && Aligned(epochStart) && Aligned(lastEpochStart)
      && lastEpochStart.keys <= head.keys && epochStart.keys <= head.keys
      && Indexes(index, head.keys)
      && headTotal == Sum(head.amounts)
      && epochStartTotal == Sum(epochStart.amounts)
      && lastEpochStartTotal == Sum(lastEpochStart.amounts)
      && headTotal < U256_LIMIT
    }

    ghost function Model(): Books
      requires Valid()
      reads this
    {
      Books(BookFrom(index, head), BookFrom(index, epochStart), BookFrom(index, lastEpochStart))
    }

    /** `register`.  Overflowing the 256-bit total panics in the source, so callers must not. */
    method RegisterKey(k: Key, amount: nat, aux: nat) returns (r: Result<nat>)
      requires Valid() && (k in index || headTotal + amount < U256_LIMIT)
      modifies this
      ensures Valid() && (Model(), r) == Apply(old(Model()), Register(k, amount, aux))
    {
      if k in index {
        return Err(ExistingKey);
      }
      var pos := |index|;
      PushKeeps(index, head, k, amount, aux);
      OlderUnmoved(index, k, pos, epochStart);
      OlderUnmoved(index, k, pos, lastEpochStart);
      SumPush(head.amounts, amount);
      head := Push(head, k, amount, aux);
      headTotal := headTotal + amount;
      index := index[k := pos];
      return Ok(0);
    }

    /** Overwrite the amount at one position and move the total along. */
    method SetAmount(k: Key, amount: nat)
      requires Valid() && k in index
      requires headTotal - head.amounts[index[k]] + amount < U256_LIMIT
      modifies this`head, this`headTotal
      ensures Valid() && k in old(Model()).head
      ensures Model() == SetHead(old(Model()), k, amount)
    {
      var pos := index[k];
      SetKeeps(index, head, k, amount);
      SumSet(head.amounts, pos, amount);
      headTotal := headTotal - head.amounts[pos] + amount;
      head := head.(amounts := head.amounts[pos := amount]);
    }

    method DeregisterKey(k: Key) returns (r: Result<nat>)
      requires Valid()
      modifies this
      ensures Valid() && (Model(), r) == Apply(old(Model()), Deregister(k))
    {
      if k !in index {
        return Err(KeyNotFound);
      }
      SetAmount(k, 0);
      return Ok(0);
    }

    method UpdateKey(k: Key, delta: nat, negative: bool) returns (r: Result<nat>)
      requires Valid() && (k !in index || negative || headTotal + delta < U256_LIMIT)
      modifies this
      ensures Valid() && (Model(), r) == Apply(old(Model()), Update(k, delta, negative))
    {
      if k !in index {
        return Err(KeyNotFound);
      }
      var amount := head.amounts[index[k]];
      if negative && delta > amount {
        return Err(InsufficientFund);
      }
      ghost var before := Model();
      amount := if negative then amount - delta else amount + delta;
      assert Apply(before, Update(k, delta, negative)) == (SetHead(before, k, amount), Ok(amount));
      SetAmount(k, amount);
      return Ok(amount);
    }

    method SetKeyValue(k: Key, value: nat) returns (r: Result<nat>)
      requires Valid() && (k !in index || headTotal - head.amounts[index[k]] + value < U256_LIMIT)
      modifies this
      ensures Valid() && (Model(), r) == Apply(old(Model()), SetValue(k, value))
    {
      if k !in index {
        return Err(KeyNotFound);
      }
      var previous := head.amounts[index[k]];
      SetAmount(k, value);
      return Ok(previous);
    }

    /** `advance`; computing the commitment needs the table to fit its capacity. */
    method AdvanceEpoch()
      requires Valid() && |head.keys| <= capacity
      modifies this
      ensures Valid() && Model() == Apply(old(Model()), Advance).0
    {
      lastEpochStart, lastEpochStartTotal := epochStart, epochStartTotal;
      epochStart, epochStartTotal := head, headTotal;
    }

    /** `lookup` and `lookup_with_aux_and_proof`: one index serves all three snapshots. */
    method Lookup(v: Version, k: Key) returns (r: Result<Stake>)
      requires Valid()
      ensures r == LookupBook(Model(), v, k)
    {
      var table: Snapshot;
      match v {
        case Head => table := head;
        case EpochStart => table := epochStart;
        case LastEpochStart => table := lastEpochStart;
        case BlockNum(_) => return Err(SnapshotUnsupported);
      }
      if k !in index {
        return Err(KeyNotFound);
      }
      var pos := index[k];
      if pos >= |table.keys| {
        return Err(KeyNotFound);
      }
      return Ok(Stake(table.amounts[pos], table.aux[pos]));
    }

    method TotalStake(v: Version) returns (r: Result<nat>)
      requires Valid()
      ensures BookOf(Model(), v).Ok? ==> r == Ok(TotalOf(BookOf(Model(), v).value))
      ensures BookOf(Model(), v).Err? ==> r == Err(SnapshotUnsupported)
    {
      match v {
        case Head =>
          BookTotal(index, head.keys, head);
          return Ok(headTotal);
        case EpochStart =>
          BookTotal(index, head.keys, epochStart);
          return Ok(epochStartTotal);
        case LastEpochStart =>
          BookTotal(index, head.keys, lastEpochStart);
          return Ok(lastEpochStartTotal);
        case BlockNum(_) => return Err(SnapshotUnsupported);
      }
    }

    method Len(v: Version) returns (r: Result<nat>)
      requires Valid()
      ensures BookOf(Model(), v).Ok? ==> r == Ok(|BookOf(Model(), v).value|)
      ensures BookOf(Model(), v).Err? ==> r == Err(SnapshotUnsupported)
    {
      match v {
        case Head =>
          BookSize(index, head.keys, head);
          return Ok(|head.keys|);
        case EpochStart =>
          BookSize(index, head.keys, epochStart);
          return Ok(|epochStart.keys|);
        case LastEpochStart =>
          BookSize(index, head.keys, lastEpochStart);
          return Ok(|lastEpochStart.keys|);
        case BlockNum(_) => return Err(SnapshotUnsupported);
      }
    }

    /** Any script of operations: the table and its answers follow the plain maps throughout. */
    method Perform(ops: seq<Op>) returns (answers: seq<Result<nat>>)
      requires Valid()
      requires forall i | 0 <= i < |ops| :: Fits(PlayBooks(Model(), ops[..i]), ops[i], capacity)
      modifies this
      ensures Valid() && Model() == PlayBooks(old(Model()), ops)
      ensures answers == PlayAnswers(old(Model()), ops)
    {
      answers := [];
      ghost var start := Model();
      var i := 0;
      assert ops[..0] == [];
      while i < |ops|
        invariant 0 <= i <= |ops|
        invariant Valid() && Model() == PlayBooks(start, ops[..i])
        invariant answers == PlayAnswers(start, ops[..i])
      {
        assert ops[..i + 1][..i] == ops[..i] && Fits(Model(), ops[i], capacity);
        var answer := PerformOne(ops[i]);
        answers := answers + [answer];
        i := i + 1;
      }
      assert ops[..|ops|] == ops;
    }

    method PerformOne(op: Op) returns (r: Result<nat>)
      requires Valid() && Fits(Model(), op, capacity)
      modifies this
      ensures Valid() && (Model(), r) == Apply(old(Model()), op)
    {
      BookTotal(index, head.keys, head);
      match op {
        case Register(k, amount, aux) => r := RegisterKey(k, amount, aux);
        case Deregister(k) => r := DeregisterKey(k);
        case Update(k, delta, negative) => r := UpdateKey(k, delta, negative);
        case SetValue(k, value) => r := SetKeyValue(k, value);
        case Advance =>
          BookSize(index, head.keys, head);
          AdvanceEpoch();
          r := Ok(0);
      }
    }
  }

  /** The 256-bit total does not overflow and an advancing table fits its capacity. */
  ghost predicate Fits(bs: Books, op: Op, capacity: nat)
  {
    match op
    case Register(k, amount, _) => k in bs.head || TotalOf(bs.head) + amount < U256_LIMIT
    case Deregister(_) => true
    case Update(k, delta, negative) => k !in bs.head || negative || TotalOf(bs.head) + delta < U256_LIMIT
    case SetValue(k, value) => k !in bs.head || TotalOf(bs.head) - bs.head[k].amount + value < U256_LIMIT
    case Advance => |bs.head| <= capacity
  }

  function PlayBooks(bs: Books, ops: seq<Op>): Books
  {
    if |ops| == 0 then bs else Apply(PlayBooks(bs, ops[..|ops| - 1]), ops[|ops| - 1]).0
  }

  function PlayAnswers(bs: Books, ops: seq<Op>): seq<Result<nat>>
  {
    if |ops| == 0 then []
    else PlayAnswers(bs, ops[..|ops| - 1]) + [Apply(PlayBooks(bs, ops[..|ops| - 1]), ops[|ops| - 1]).1]
  }

  // ---- what the operations do, seen through lookups ----

  /** The stake a key has at the head, if it is known. */
  function AtHead(bs: Books, k: Key): Result<Stake> { LookupBook(bs, Head, k) }

  /** The key an operation is about has the new stake afterwards, or the operation is refused and says why. */
  lemma OperationOnKey(bs: Books, op: Op)
    requires !op.Advance?
    ensures var (bs', answer) := Apply(bs, op);
            var was, now := AtHead(bs, op.key), AtHead(bs', op.key);
            match op {
              case Register(_, amount, aux) =>
                if was.Ok? then answer == Err(ExistingKey) && now == was else answer.Ok? && now == Ok(Stake(amount, aux))
              case Deregister(_) =>
                if was.Err? then answer == Err(KeyNotFound) && now == was
                else answer.Ok? && now == Ok(Stake(0, was.value.aux))
              case Update(_, delta, negative) =>
                if was.Err? then answer == Err(KeyNotFound) && now == was
                else if negative && was.value.amount < delta then answer == Err(InsufficientFund) && now == was
                else now.Ok? && now.value.aux == was.value.aux && answer == Ok(now.value.amount) &&
                     (if negative then now.value.amount + delta == was.value.amount
                      else now.value.amount == was.value.amount + delta)
              case SetValue(_, value) =>
                if was.Err? then answer == Err(KeyNotFound) && now == was
                else answer == Ok(was.value.amount) && now == Ok(Stake(value, was.value.aux))
              case Advance => true
            }
  {}

  /** There is no snapshot by block number. */
  lemma NoBlockSnapshot(bs: Books, number: nat, k: Key)
    ensures LookupBook(bs, BlockNum(number), k) == Err(SnapshotUnsupported)
  {}

  /** No operation but advancing touches another key or an older snapshot; advancing moves each snapshot
      to the one before it and leaves the head. */
  lemma OtherLookups(bs: Books, op: Op, k: Key)
    ensures var bs' := Apply(bs, op).0;
            if op.Advance? then
              && LookupBook(bs', Head, k) == LookupBook(bs, Head, k)
              && LookupBook(bs', EpochStart, k) == LookupBook(bs, Head, k)
              && LookupBook(bs', LastEpochStart, k) == LookupBook(bs, EpochStart, k)
            else
              && (k != op.key ==> LookupBook(bs', Head, k) == LookupBook(bs, Head, k))
              && LookupBook(bs', EpochStart, k) == LookupBook(bs, EpochStart, k)
              && LookupBook(bs', LastEpochStart, k) == LookupBook(bs, LastEpochStart, k)
  {}

  /** After any script, the epoch start is the head as it was at the last advance. */
  lemma {:induction false} EpochStartIsHead(bs: Books, ops: seq<Op>, j: nat, k: Key)
    requires j < |ops| && ops[j].Advance? && forall i | j < i < |ops| :: !ops[i].Advance?
    ensures LookupBook(PlayBooks(bs, ops), EpochStart, k) == LookupBook(PlayBooks(bs, ops[..j]), Head, k)
    decreases |ops|
  {
    var most := ops[..|ops| - 1];
    OtherLookups(PlayBooks(bs, most), ops[|ops| - 1], k);
    if j < |most| {
      EpochStartIsHead(bs, most, j, k);
      assert most[..j] == ops[..j];
    }
  }

  /** And the last epoch's start the head as it was at the advance before that. */
  lemma {:induction false} LastEpochStartIsHead(bs: Books, ops: seq<Op>, i: nat, j: nat, k: Key)
    requires i < j < |ops| && ops[i].Advance? && ops[j].Advance?
    requires forall x | i < x < |ops| && x != j :: !ops[x].Advance?
    ensures LookupBook(PlayBooks(bs, ops), LastEpochStart, k) == LookupBook(PlayBooks(bs, ops[..i]), Head, k)
    decreases |ops|
  {
    var most := ops[..|ops| - 1];
    OtherLookups(PlayBooks(bs, most), ops[|ops| - 1], k);
    if j < |most| {
      LastEpochStartIsHead(bs, most, i, j, k);
    } else {
      EpochStartIsHead(bs, most, i, k);
    }
    assert most[..i] == ops[..i];
  }

  lemma SetTotal(b: Book, k: Key, was: nat, stake: Stake)
    requires was == if k in b then b[k].amount else 0
    ensures TotalOf(b[k := stake]) + was == TotalOf(b) + stake.amount
  {
    TotalSplit(b[k := stake], k);
    assert b[k := stake] - {k} == b - {k};
    if k in b {
      TotalSplit(b, k);
    } else {
      assert b - {k} == b;
    }
  }

  /** Stake is conserved: the head's total moves by exactly what the operation's key gains or loses. */
  lemma TotalMoves(bs: Books, op: Op)
    requires !op.Advance?
    ensures var bs' := Apply(bs, op).0;
            TotalOf(bs'.head) + AmountOf(AtHead(bs, op.key)) == TotalOf(bs.head) + AmountOf(AtHead(bs', op.key))
  {
    var bs', k := Apply(bs, op).0, op.key;
    if bs' != bs {
      assert bs'.head == bs.head[k := bs'.head[k]];
      SetTotal(bs.head, k, AmountOf(AtHead(bs, k)), bs'.head[k]);
    }
  }

  function AmountOf(r: Result<Stake>): nat { if r.Ok? then r.value.amount else 0 }
}
