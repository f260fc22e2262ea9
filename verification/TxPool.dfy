/** core/txpool.go: the queue and relay pools, with packed batches sharing the queue's backing array. */
module TxPools {
  import opened Wrappers
  import opened Addresses
  import opened Bytes
  import opened Transactions
  import opened GoSlices

  type TxSlice = Slice<Transaction>

  function Flatten<T>(xss: seq<seq<T>>): (xs: seq<T>) {
    if xss == [] then [] else Flatten(xss[..|xss| - 1]) + xss[|xss| - 1]
  }

  lemma FlattenSnoc<T>(xss: seq<seq<T>>, xs: seq<T>)
    ensures Flatten(xss + [xs]) == Flatten(xss) + xs
  {
    assert (xss + [xs])[..|xss|] == xss;
  }

  /** Moving the front of the queue into a new batch keeps the order of everything. */
  lemma FifoAfterPack(batches: seq<seq<Transaction>>, front: seq<Transaction>, back: seq<Transaction>)
    ensures Flatten(batches + [front]) + back == Flatten(batches) + (front + back)
  {
    FlattenSnoc(batches, front);
  }

  /** A transaction enters the pool with the current time unless it has one. */
  function Stamp(tx: Transaction, now: nat): (r: Transaction) {
    if tx.time == 0 then tx.(time := now) else tx
  }

  /** A time that is set is kept, a zero time becomes the current one, and nothing else changes. */
  lemma StampSetsTimeOnly(tx: Transaction, now: nat)
    ensures Stamp(tx, now).time == if tx.time != 0 then tx.time else now
    ensures Stamp(tx, now).(time := tx.time) == tx
  {
  }

  function StampAll(txs: seq<Transaction>, now: nat): (r: seq<Transaction>)
    ensures |r| == |txs|
  {
    seq(|txs|, i requires 0 <= i < |txs| => Stamp(txs[i], now))
  }

  lemma StampAllInOrder(txs: seq<Transaction>, now: nat, i: nat)
    requires i < |txs|
    ensures StampAll(txs, now)[i].(time := txs[i].time) == txs[i]
    ensures StampAll(txs, now)[i].time == if txs[i].time != 0 then txs[i].time else now
  {
    StampSetsTimeOnly(txs[i], now);
  }

  /** The transactions sent by addr, and the others, in order. */
  function SentBy(txs: seq<Transaction>, addr: Address): (r: seq<Transaction>) {
    if txs == [] then []
    else SentBy(txs[..|txs| - 1], addr) + if txs[|txs| - 1].sender == addr then [txs[|txs| - 1]] else []
  }

  function NotSentBy(txs: seq<Transaction>, addr: Address): (r: seq<Transaction>) {
    if txs == [] then []
    else NotSentBy(txs[..|txs| - 1], addr) + if txs[|txs| - 1].sender == addr then [] else [txs[|txs| - 1]]
  }

  /** Splitting by sender loses and duplicates nothing. */
  lemma {:induction false} SplitKeepsAll(txs: seq<Transaction>, addr: Address)
    ensures multiset(SentBy(txs, addr)) + multiset(NotSentBy(txs, addr)) == multiset(txs)
  {
    if txs != [] {
      var n := |txs| - 1;
      SplitKeepsAll(txs[..n], addr);
      assert txs == txs[..n] + [txs[n]];
      hide SentBy, NotSentBy;
      SplitNext(txs, addr);
    }
  }

  lemma SplitNext(txs: seq<Transaction>, addr: Address)
    requires txs != []
    ensures var front, last := txs[..|txs| - 1], txs[|txs| - 1];
            if last.sender == addr then
              SentBy(txs, addr) == SentBy(front, addr) + [last] && NotSentBy(txs, addr) == NotSentBy(front, addr)
            else SentBy(txs, addr) == SentBy(front, addr) && NotSentBy(txs, addr) == NotSentBy(front, addr) + [last]
  {
  }

  /** Every transaction lands on its own side of the split. */
  lemma {:induction false} SplitIsBySender(txs: seq<Transaction>, addr: Address)
    ensures forall i | 0 <= i < |SentBy(txs, addr)| :: SentBy(txs, addr)[i].sender == addr
    ensures forall i | 0 <= i < |NotSentBy(txs, addr)| :: NotSentBy(txs, addr)[i].sender != addr
  {
    if txs != [] {
      SplitIsBySender(txs[..|txs| - 1], addr);
    }
  }

  /** Both sides keep the order of the list: they are taken from its parts one after the other. */
  lemma {:induction false} SplitInOrder(a: seq<Transaction>, b: seq<Transaction>, addr: Address)
    ensures SentBy(a + b, addr) == SentBy(a, addr) + SentBy(b, addr)
    ensures NotSentBy(a + b, addr) == NotSentBy(a, addr) + NotSentBy(b, addr)
  {
    if b == [] {
      assert a + b == a;
    } else {
      hide SentBy, NotSentBy;
      SplitInOrder(a, b[..|b| - 1], addr);
      FrontOfBoth(a, b);
      SplitNext(b, addr);
      SplitNext(a + b, addr);
    }
  }

  lemma FrontOfBoth<T>(a: seq<T>, b: seq<T>)
    requires b != []
    ensures var both, n := a + b, |b| - 1; both[..|both| - 1] == a + b[..n] && both[|both| - 1] == b[n]
  {
  }

  lemma SplitOne(tx: Transaction, addr: Address)
    ensures SentBy([tx], addr) == if tx.sender == addr then [tx] else []
    ensures NotSentBy([tx], addr) == if tx.sender == addr then [] else [tx]
  {
  }

  /** Relay pools by shard; None is the nil map left behind by ClearRelayPool. */
  type RelayMap = Option<map<nat, seq<Transaction>>>

  function RelayOf(pool: RelayMap): (m: map<nat, seq<Transaction>>) {
    if pool.None? then map[] else pool.value
  }

  /** What stays in the relay pools when addr moves away; a pool left empty disappears. */
  function RelayLeft(m: map<nat, seq<Transaction>>, addr: Address): (r: map<nat, seq<Transaction>>) {
    map shard | shard in m && NotSentBy(m[shard], addr) != [] :: NotSentBy(m[shard], addr)
  }

  /** The transactions taken out of the relay pools when they are visited in the given order. */
  function RelayTaken(m: map<nat, seq<Transaction>>, addr: Address, order: seq<nat>): (r: seq<Transaction>)
    requires forall i | 0 <= i < |order| :: order[i] in m
  {
    if order == [] then []
    else RelayTaken(m, addr, order[..|order| - 1]) + SentBy(m[order[|order| - 1]], addr)
  }

  /** A relay pool stays exactly when somebody else sent a transaction in it, and keeps exactly those. */
  lemma RelayLeftExactly(m: map<nat, seq<Transaction>>, addr: Address, shard: nat)
    ensures shard in RelayLeft(m, addr) <==> shard in m && exists i :: 0 <= i < |m[shard]| && m[shard][i].sender != addr
    ensures shard in RelayLeft(m, addr) ==> RelayLeft(m, addr)[shard] == NotSentBy(m[shard], addr)
  {
    if shard in m {
      SplitKeepsAll(m[shard], addr);
      SplitIsBySender(m[shard], addr);
      var sent, others := SentBy(m[shard], addr), NotSentBy(m[shard], addr);
      hide SentBy, NotSentBy;
      if others != [] {
        assert others[0] in multiset(m[shard]);
      }
      forall i | 0 <= i < |m[shard]| && m[shard][i].sender != addr ensures others != [] {
        assert m[shard][i] in multiset(sent) + multiset(others);
      }
    }
  }

  /** The pools are emptied in the order in which they are visited. */
  lemma {:induction false} RelayTakenInOrder(
    m: map<nat, seq<Transaction>>, addr: Address, a: seq<nat>, b: seq<nat>)
    requires forall i | 0 <= i < |a| :: a[i] in m
    requires forall i | 0 <= i < |b| :: b[i] in m
    ensures RelayTaken(m, addr, a + b) == RelayTaken(m, addr, a) + RelayTaken(m, addr, b)
    ensures |b| == 1 ==> RelayTaken(m, addr, b) == SentBy(m[b[0]], addr)
  {
    if b == [] {
      assert a + b == a;
    } else {
      hide SentBy;
      RelayTakenInOrder(m, addr, a, b[..|b| - 1]);
      FrontOfBoth(a, b);
      RelayTakenNext(m, addr, b);
      RelayTakenNext(m, addr, a + b);
      hide RelayTaken;
    }
  }

  lemma RelayTakenNext(m: map<nat, seq<Transaction>>, addr: Address, order: seq<nat>)
    requires order != [] && forall i | 0 <= i < |order| :: order[i] in m
    ensures var n := |order| - 1;
            RelayTaken(m, addr, order) == RelayTaken(m, addr, order[..n]) + SentBy(m[order[n]], addr)
    ensures |order| == 1 ==> RelayTaken(m, addr, order) == SentBy(m[order[0]], addr)
  {
  }

  /** An iteration order of the keys: every key exactly once. */
  predicate OrderOf(order: seq<nat>, keys: set<nat>) {
    (forall i | 0 <= i < |order| :: order[i] in keys) &&
    (forall k | k in keys :: k in order) &&
    forall i, j | 0 <= i < j < |order| :: order[i] != order[j]
  }

  ghost function ArraysOf(slices: seq<TxSlice>): (arrays: set<array<Transaction>>) {
    set s | s in slices :: s.arr
  }

  /** What the slices show in the current heap. */
  ghost function ContentsOf(slices: seq<TxSlice>): (contents: seq<seq<Transaction>>)
    requires forall i | 0 <= i < |slices| :: slices[i].Valid()
    reads ArraysOf(slices)
    ensures |contents| == |slices|
    ensures forall i | 0 <= i < |slices| :: contents[i] == slices[i].Contents()
  {
    seq(|slices|, i requires 0 <= i < |slices| && slices[i].Valid() reads ArraysOf(slices) => slices[i].Contents())
  }

  /** Batches that share an array lie before one another in the order of packing, and before the queue. */
  ghost predicate LaidOut(queue: TxSlice, packed: seq<TxSlice>) {
    queue.Valid() &&
    (forall i | 0 <= i < |packed| :: packed[i].Valid()) &&
    (forall i | 0 <= i < |packed| :: packed[i].arr == queue.arr ==> packed[i].End() <= queue.off) &&
    forall i, j | 0 <= i < j < |packed| :: packed[i].arr == packed[j].arr ==> packed[i].End() <= packed[j].off
  }

  /** The list without its element i; nothing is left out when i is its length. */
  function Without<T>(xs: seq<T>, i: nat): (r: seq<T>)
    requires i <= |xs|
    ensures |r| == if i == |xs| then i else |xs| - 1
    ensures forall k {:trigger r[k]} | 0 <= k < |r| :: r[k] == if k < i then xs[k] else xs[k + 1]
  {
    if i == |xs| then xs else seq(|xs| - 1, k requires 0 <= k < |xs| - 1 => if k < i then xs[k] else xs[k + 1])
  }

  /** append has room for n more behind the slice. */
  predicate InPlace(txs: TxSlice, n: nat) {
    txs.len + n <= txs.cap
  }

  /**
   * Batch i, or for i == |packed| any other slice, may be pushed back in front of n queued transactions: either they
   * move to a new array, or every other batch in the same array ends before the slice starts.
   */
  ghost predicate Returnable(packed: seq<TxSlice>, i: nat, txs: TxSlice, n: nat) {
    InPlace(txs, n) ==> forall j | 0 <= j < |packed| && j != i && packed[j].arr == txs.arr :: packed[j].End() <= txs.off
  }

  /**
   * Exactly when pushing back keeps all batches apart: an append in place does when every other batch in the same
   * array ends before the slice starts, and one that reallocates always does.
   */
  lemma ReturnKeepsLayoutExactly(
    queue: TxSlice, packed: seq<TxSlice>, i: nat, txs: TxSlice, n: nat, result: TxSlice)
    requires LaidOut(queue, packed) && i <= |packed| && result.Valid()
    requires if InPlace(txs, n) then result == txs.(len := txs.len + n) else result.arr !in ArraysOf(packed)
    ensures LaidOut(result, Without(packed, i)) <==> Returnable(packed, i, txs, n)
  {
    var kept := Without(packed, i);
    assert forall j | 0 <= j < |packed| && j != i :: packed[j] == kept[if j < i then j else j - 1];
    hide Without;
    assert forall k | 0 <= k < |packed| :: packed[k].arr in ArraysOf(packed);
  }

  /**
   * So the batch packed last may always be pushed back, and an older one that is not empty exactly when its append
   * reallocates or no batch packed later lies in the same array; and so may any slice whose array no batch uses.
   */
  lemma ReturnableExactly(queue: TxSlice, packed: seq<TxSlice>, i: nat, txs: TxSlice, n: nat)
    requires LaidOut(queue, packed) && i <= |packed| && (i < |packed| - 1 ==> txs.len > 0)
    ensures i < |packed| && txs == packed[i] ==>
              (Returnable(packed, i, txs, n) <==>
               !InPlace(txs, n) || forall j | i < j < |packed| :: packed[j].arr != txs.arr)
    ensures i == |packed| && txs.arr !in ArraysOf(packed) ==> Returnable(packed, i, txs, n)
  {
    assert forall j | 0 <= j < |packed| :: packed[j].arr in ArraysOf(packed);
  }

  /** What a batch shows after an append in place to txs: queued transactions where they were written. */
  function Overwritten(b: TxSlice, contents: seq<Transaction>, txs: TxSlice, queue: seq<Transaction>)
    : (r: seq<Transaction>)
    requires |contents| == b.len
    ensures |r| == b.len
  {
    seq(b.len, k requires 0 <= k < b.len =>
      if txs.End() <= b.off + k < txs.End() + |queue| then queue[b.off + k - txs.End()] else contents[k])
  }

  /** A batch is left alone exactly when it ends before or begins after the part that is written. */
  lemma OverwrittenExactly(b: TxSlice, contents: seq<Transaction>, txs: TxSlice, queue: seq<Transaction>)
    requires |contents| == b.len && forall i, j | 0 <= i < |contents| && 0 <= j < |queue| :: contents[i] != queue[j]
    ensures Overwritten(b, contents, txs, queue) == contents <==>
              b.len == 0 || queue == [] || b.End() <= txs.End() || txs.End() + |queue| <= b.off
  {
    if b.len > 0 && queue != [] && txs.End() < b.End() && b.off < txs.End() + |queue| {
      var k := if txs.End() <= b.off then 0 else txs.End() - b.off;
      assert Overwritten(b, contents, txs, queue)[k] == queue[b.off + k - txs.End()];
    }
  }

  /** The elements off..end of an array after xs was written over it from position at on. */
  lemma WindowOverwritten(
    before: seq<Transaction>, after: seq<Transaction>, b: TxSlice, txs: TxSlice, queue: seq<Transaction>)
    requires |after| == |before| && b.End() <= |before| && txs.End() + |queue| <= |before|
    requires forall k | 0 <= k < |before| ::
               after[k] == if txs.End() <= k < txs.End() + |queue| then queue[k - txs.End()] else before[k]
    ensures after[b.off..b.End()] == Overwritten(b, before[b.off..b.End()], txs, queue)
  {
  }

  /** append(txs, queue...), and what it does to the contents of all batches. */
  method Prepend(
    txs: TxSlice, queue: seq<Transaction>, ghost packed: seq<TxSlice>, ghost batches: seq<seq<Transaction>>)
    returns (r: TxSlice)
    requires txs.Valid() && |packed| == |batches|
    requires forall j | 0 <= j < |packed| :: |batches[j]| == packed[j].len
    requires forall j | 0 <= j < |packed| :: packed[j].Valid() && packed[j].Contents() == batches[j]
    modifies txs.arr
    ensures r.Valid() && r.Contents() == old(txs.Contents()) + queue
    ensures if InPlace(txs, |queue|) then r == txs.(len := txs.len + |queue|) else fresh(r.arr)
    ensures forall j | 0 <= j < |packed| ::
              packed[j].Contents()
                == if InPlace(txs, |queue|) && packed[j].arr == txs.arr
                   then Overwritten(packed[j], batches[j], txs, queue) else batches[j]
  {
    hide Overwritten, Slice.Contents;
    ghost var before := txs.arr[..];
    Shows(txs);
    forall j | 0 <= j < |packed| ensures batches[j] == packed[j].arr[..][packed[j].off..packed[j].End()] {
      Shows(packed[j]);
    }
    r := Append(txs, queue);
    if InPlace(txs, |queue|) {
      Shows(r);
      InPlaceIndices(before, txs.arr[..], txs, queue, r.Contents());
      forall j | 0 <= j < |packed| && packed[j].arr == txs.arr
        ensures packed[j].Contents() == Overwritten(packed[j], batches[j], txs, queue)
      {
        Shows(packed[j]);
        WindowOverwritten(before, txs.arr[..], packed[j], txs, queue);
      }
    } else {
      forall j | 0 <= j < |packed| && packed[j].arr == txs.arr ensures packed[j].Contents() == batches[j] {
        Shows(packed[j]);
      }
    }
  }

  lemma Shows(s: TxSlice)
    requires s.Valid()
    ensures s.Contents() == s.arr[..][s.off..s.End()]
  {
  }

  /** The whole array after an append in place. */
  lemma InPlaceIndices(
    before: seq<Transaction>, after: seq<Transaction>, txs: TxSlice, queue: seq<Transaction>, whole: seq<Transaction>)
    requires |after| == |before| && txs.End() + |queue| <= |before| && |whole| == txs.len + |queue|
    requires whole == after[txs.off..txs.End() + |queue|] && whole == before[txs.off..txs.End()] + queue
    requires forall k | 0 <= k < |before| && !(txs.End() <= k < txs.End() + |queue|) :: after[k] == before[k]
    ensures forall k | 0 <= k < |before| ::
              after[k] == if txs.End() <= k < txs.End() + |queue| then queue[k - txs.End()] else before[k]
  {
    forall k | txs.End() <= k < txs.End() + |queue| ensures after[k] == queue[k - txs.End()] {
      assert after[k] == whole[k - txs.off];
    }
  }

  lemma EndsBefore(b: TxSlice, contents: seq<Transaction>, txs: TxSlice, queue: seq<Transaction>)
    requires |contents| == b.len && b.End() <= txs.End()
    ensures Overwritten(b, contents, txs, queue) == contents
  {
  }

  lemma ReturnKeepsBatches(
    packed: seq<TxSlice>, batches: seq<seq<Transaction>>, i: nat, txs: TxSlice, queue: seq<Transaction>)
    requires |packed| == |batches| && i <= |packed| && Returnable(packed, i, txs, |queue|) && txs.Valid()
    requires forall j | 0 <= j < |packed| :: packed[j].Valid() && |batches[j]| == packed[j].len
    requires forall j | 0 <= j < |packed| ::
               packed[j].Contents()
                 == if InPlace(txs, |queue|) && packed[j].arr == txs.arr
                    then Overwritten(packed[j], batches[j], txs, queue) else batches[j]
    ensures forall k | 0 <= k < |Without(packed, i)| :: Without(packed, i)[k].Valid()
    ensures ContentsOf(Without(packed, i)) == Without(batches, i)
  {
    forall j | 0 <= j < |packed| && j != i ensures packed[j].Contents() == batches[j] {
      if packed[j].arr == txs.arr && InPlace(txs, |queue|) {
        EndsBefore(packed[j], batches[j], txs, queue);
      }
    }
    hide Without, ContentsOf;
    ContentsAre(Without(packed, i), Without(batches, i));
  }

  lemma LastReturned(batches: seq<seq<Transaction>>, queue: seq<Transaction>)
    requires batches != []
    ensures var n := |batches| - 1;
            Without(batches, n) == batches[..n] &&
            Flatten(batches[..n]) + (batches[n] + queue) == Flatten(batches) + queue
  {
    var n := |batches| - 1;
    FlattenSnoc(batches[..n], batches[n]);
    assert batches == batches[..n] + [batches[n]];
    MoveBracket(Flatten(batches[..n]), batches[n], queue);
  }

  lemma MoveBracket(a: seq<Transaction>, b: seq<Transaction>, c: seq<Transaction>)
    ensures a + (b + c) == a + b + c
  {
  }

  lemma ContentsAre(slices: seq<TxSlice>, contents: seq<seq<Transaction>>)
    requires |contents| == |slices|
    requires forall i | 0 <= i < |slices| :: slices[i].Valid() && slices[i].Contents() == contents[i]
    ensures ContentsOf(slices) == contents
  {
  }

  /** The transactions PackTxs takes from a queue. */
  function Front(txs: seq<Transaction>, maxTxs: nat): (r: seq<Transaction>)
    ensures |r| <= maxTxs && r <= txs
  {
    if |txs| < maxTxs then txs else txs[..maxTxs]
  }

  lemma CutContents(queue: TxSlice, n: nat, front: TxSlice, rest: TxSlice)
    requires queue.Valid() && n <= queue.len
    requires front == queue.(len := n) && rest == Slice(queue.arr, queue.off + n, queue.len - n, queue.cap - n)
    ensures front.Valid() && rest.Valid() && front.Contents() + rest.Contents() == queue.Contents()
  {
  }

  lemma FrontIs(txs: seq<Transaction>, maxTxs: nat, front: seq<Transaction>, back: seq<Transaction>)
    requires front + back == txs && |front| == if |txs| < maxTxs then |txs| else maxTxs
    ensures front == Front(txs, maxTxs)
  {
  }

  class TxPool {
    var TxQueue: TxSlice
    var RelayPool: RelayMap

    /** Batches handed out by PackTxs and not pushed back, oldest first. */
    ghost var packed: seq<TxSlice>

    /** Every transaction that entered the queue and was not transferred away, in order. */
    ghost var entered: seq<Transaction>

    ghost function Arrays(): (arrays: set<array<Transaction>>)
      reads this`TxQueue, this`packed
    {
      {TxQueue.arr} + ArraysOf(packed)
    }

    ghost predicate Layout()
      reads this`TxQueue, this`packed
    {
      LaidOut(TxQueue, packed)
    }

    /** The contents of the outstanding batches in the current heap. */
    ghost function Batches(): (bs: seq<seq<Transaction>>)
      requires Layout()
      reads this`TxQueue, this`packed, Arrays()
      ensures |bs| == |packed|
    {
      ContentsOf(packed)
    }

    function Queue(): (txs: seq<Transaction>)
      requires TxQueue.Valid()
      reads this`TxQueue, this`packed, TxQueue.arr
    {
      TxQueue.Contents()
    }

    /** First in, first out: the outstanding batches followed by the queue are exactly what entered, in order. */
    ghost predicate Valid()
      reads this, Arrays()
    {
      TxQueue.Valid() && Layout() && Flatten(Batches()) + Queue() == entered
    }

    constructor ()
      ensures Valid() && fresh(Arrays())
      ensures Queue() == [] && RelayPool == Some(map[]) && packed == [] && entered == []
    {
      var empty := NilSlice<Transaction>();
      TxQueue, RelayPool, packed, entered := empty, Some(map[]), [], [];
    }

    method AddTx2Pool(tx: Transaction, now: nat)
      requires TxQueue.Valid()
      modifies this`TxQueue, this`entered, TxQueue.arr
      ensures TxQueue.Valid() && (TxQueue.arr == old(TxQueue.arr) || fresh(TxQueue.arr))
      ensures Queue() == old(Queue()) + [Stamp(tx, now)]
      ensures InPlace(old(TxQueue), 1) ==> TxQueue == old(TxQueue).(len := old(TxQueue.len) + 1)
      ensures entered == old(entered) + [Stamp(tx, now)]
      ensures old(Valid()) ==> Valid() && Batches() == old(Batches())
    {
      hide ContentsOf, Flatten, Stamp;
      ghost var apart, queue := Valid(), Queue();
      ghost var batches := if apart then Batches() else [];
      TxQueue := Append(TxQueue, [Stamp(tx, now)]);
      entered := entered + [Stamp(tx, now)];
      if apart {
        ContentsAre(packed, batches);
        MoveBracket(Flatten(batches), queue, [Stamp(tx, now)]);
      }
    }

    method AddTxs2Pool(txs: seq<Transaction>, now: nat)
      requires Valid()
      modifies this`TxQueue, this`entered, TxQueue.arr
      ensures Valid() && (TxQueue.arr == old(TxQueue.arr) || fresh(TxQueue.arr))
      ensures Queue() == old(Queue()) + StampAll(txs, now)
      ensures Batches() == old(Batches())
      ensures entered == old(entered) + StampAll(txs, now)
    {
      hide ContentsOf, Flatten, LaidOut, Stamp;
      for i := 0 to |txs|
        invariant Valid() && (TxQueue.arr == old(TxQueue.arr) || fresh(TxQueue.arr))
        invariant Queue() == old(Queue()) + StampAll(txs, now)[..i]
        invariant Batches() == old(Batches())
        invariant entered == old(entered) + StampAll(txs, now)[..i]
      {
        AddTx2Pool(txs[i], now);
      }
    }

    method PackTxs(max_txs: nat) returns (batch: TxSlice)
      requires Valid()
      modifies this`TxQueue, this`packed
      ensures Valid() && batch.Valid() && Arrays() <= old(Arrays())
      ensures packed == old(packed) + [batch] && Batches() == old(Batches()) + [batch.Contents()]
      ensures batch.Contents() == Front(old(Queue()), max_txs) && batch.Contents() + Queue() == old(Queue())
      ensures batch == old(TxQueue).(len := if old(TxQueue.len) < max_txs then old(TxQueue.len) else max_txs)
      ensures TxQueue == Slice(batch.arr, batch.End(), old(TxQueue.len) - batch.len, batch.cap - batch.len)
    {
      var n := if TxQueue.len < max_txs then TxQueue.len else max_txs;
      hide ContentsOf, Flatten, Front, Slice.Contents;
      ghost var batches, queue := Batches(), Queue();
      batch := TxQueue.(len := n);
      TxQueue := Slice(TxQueue.arr, TxQueue.off + n, TxQueue.len - n, TxQueue.cap - n);
      CutContents(old(TxQueue), n, batch, TxQueue);
      FrontIs(queue, max_txs, batch.Contents(), Queue());
      FifoAfterPack(batches, batch.Contents(), Queue());
      packed := packed + [batch];
      ContentsAre(packed, batches + [batch.Contents()]);
    }

    /**
     * The slice comes just before the queue, whatever slice it is: the outstanding batch i, or another one for
     * i == |packed|. When it may be pushed back, the other batches keep their contents and stay apart; pushing back
     * the batch packed last restores the order of entering. In any case an append in place overwrites exactly the
     * transactions behind the slice.
     */
    method AddTxs2Pool_Head(txs: TxSlice, ghost i: nat)
      requires Valid() && txs.Valid() && i <= |packed| && (i < |packed| ==> txs == packed[i])
      modifies this`TxQueue, this`packed, this`entered, txs.arr
      ensures TxQueue.Valid() && Queue() == old(txs.Contents() + Queue())
      ensures if InPlace(txs, old(TxQueue.len)) then TxQueue == txs.(len := txs.len + old(TxQueue.len))
              else fresh(TxQueue.arr)
      ensures packed == old(Without(packed, i))
      ensures old(Returnable(packed, i, txs, TxQueue.len)) ==> Valid() && Batches() == old(Without(Batches(), i))
      ensures i == |old(packed)| - 1 ==> entered == old(entered)
      ensures forall j | 0 <= j < |old(packed)| ::
                old(packed)[j].Valid() &&
                old(packed)[j].Contents()
                  == if InPlace(txs, old(TxQueue.len)) && old(packed)[j].arr == txs.arr
                     then Overwritten(old(packed)[j], old(Batches()[j]), txs, old(Queue())) else old(Batches()[j])
    {
      hide Flatten, ContentsOf, Without, Overwritten, Slice.Contents;
      ghost var batches, queue, was := Batches(), Queue(), packed;
      ghost var apart := Returnable(packed, i, txs, TxQueue.len);
      ghost var longer := Flatten(Without(batches, i)) + (txs.Contents() + queue);
      TxQueue := Prepend(txs, TxQueue.Contents(), packed, batches);
      packed := Without(was, i);
      ReturnKeepsLayoutExactly(old(TxQueue), was, i, txs, |queue|, TxQueue);
      hide LaidOut, Returnable;
      if i == |was| - 1 {
        LastReturned(batches, queue);
      }
      entered := longer;
      if apart {
        ReturnKeepsBatches(was, batches, i, txs, queue);
        assert Batches() == Without(batches, i);
      }
    }

    function GetTxQueueLen(): (n: nat)
      reads this`TxQueue
    {
      TxQueue.len
    }

    // ----- Relay pools -----

    /** Writing to the nil map left by ClearRelayPool panics. */
    method AddRelayTx(tx: Transaction, shardID: nat)
      requires RelayPool.Some?
      modifies this`RelayPool
      ensures RelayPool == Some(old(RelayPool.value)[shardID :=
                (if shardID in old(RelayPool.value) then old(RelayPool.value)[shardID] else []) + [tx]])
    {
      var m := RelayPool.value;
      if shardID !in m {
        m := m[shardID := []];
      }
      RelayPool := Some(m[shardID := m[shardID] + [tx]]);
      assert m[shardID := m[shardID] + [tx]] == old(RelayPool.value)[shardID := m[shardID] + [tx]];
    }

    method ClearRelayPool()
      modifies this`RelayPool
      ensures RelayPool == None
    {
      RelayPool := None;
    }

    /** None when the pool is missing or smaller than the minimum, which is converted to int. */
    method PackRelayTxs(shardID: nat, minRelaySize: nat, maxRelaySize: nat) returns (r: Option<seq<Transaction>>)
      requires minRelaySize < TWO_64 && maxRelaySize < TWO_64
      modifies this`RelayPool
      ensures var m := old(RelayOf(RelayPool));
              if shardID !in m || |m[shardID]| < ToInt64(minRelaySize) then r == None && RelayPool == old(RelayPool)
              else
                r.Some? && RelayPool.Some? && RelayPool.value.Keys == m.Keys &&
                r.value + RelayPool.value[shardID] == m[shardID] &&
                (|r.value| == maxRelaySize || (|r.value| < maxRelaySize && RelayPool.value[shardID] == [])) &&
                forall k | k in m && k != shardID :: RelayPool.value[k] == m[k]
    {
      var m := RelayOf(RelayPool);
      if shardID !in m {
        return None;
      }
      if |m[shardID]| < ToInt64(minRelaySize) {
        return None;
      }
      var txNum := if |m[shardID]| < maxRelaySize then |m[shardID]| else maxRelaySize;
      r := Some(m[shardID][..txNum]);
      RelayPool := Some(m[shardID := m[shardID][txNum..]]);
    }

    /**
     * Takes out everything addr sent. What stays keeps its order and does not depend on the order in which the
     * relay map is visited; what is taken depends on it only in the order of the shards.
     */
    method TransferTxs(addr: Address) returns (taken: TxSlice, ghost order: seq<nat>)
      requires Valid()
      modifies this
      ensures Valid() && fresh(TxQueue.arr) && packed == old(packed) && Batches() == old(Batches())
      ensures Queue() == NotSentBy(old(Queue()), addr)
      ensures RelayPool == Some(RelayLeft(old(RelayOf(RelayPool)), addr))
      ensures OrderOf(order, old(RelayOf(RelayPool)).Keys)
      ensures taken.Valid() && fresh(taken.arr) && taken.arr != TxQueue.arr
      ensures taken.Contents() == SentBy(old(Queue()), addr) + RelayTaken(old(RelayOf(RelayPool)), addr, order)
    {
      hide Flatten, ContentsOf;
      ghost var batches := Batches();
      var kept;
      taken, kept := SplitQueue(Queue(), addr);
      var left;
      taken, left, order := SplitRelay(RelayOf(RelayPool), addr, taken);
      TxQueue, RelayPool := kept, Some(left);
      entered := Flatten(batches) + kept.Contents();
      assert LaidOut(TxQueue, packed);
      ContentsAre(packed, batches);
    }

    /** The loop over the queue. */
    static method SplitQueue(txs: seq<Transaction>, addr: Address) returns (taken: TxSlice, kept: TxSlice)
      ensures taken.Valid() && kept.Valid() && fresh(taken.arr) && fresh(kept.arr) && taken.arr != kept.arr
      ensures taken.Contents() == SentBy(txs, addr) && kept.Contents() == NotSentBy(txs, addr)
    {
      taken := NilSlice();
      kept := NilSlice();
      for i := 0 to |txs|
        invariant taken.Valid() && kept.Valid() && fresh(taken.arr) && fresh(kept.arr) && taken.arr != kept.arr
        invariant taken.Contents() == SentBy(txs[..i], addr) && kept.Contents() == NotSentBy(txs[..i], addr)
      {
        assert txs[..i + 1][..i] == txs[..i];
        if txs[i].sender == addr {
          taken := Append(taken, [txs[i]]);
        } else {
          kept := Append(kept, [txs[i]]);
        }
      }
      assert txs[..|txs|] == txs;
    }

    /** The loop over the relay map, whose keys are visited in any order. */
    static method SplitRelay(m: map<nat, seq<Transaction>>, addr: Address, already: TxSlice)
      returns (taken: TxSlice, left: map<nat, seq<Transaction>>, ghost order: seq<nat>)
      requires already.Valid()
      modifies already.arr
      ensures taken.Valid() && (taken.arr == already.arr || fresh(taken.arr))
      ensures left == RelayLeft(m, addr) && OrderOf(order, m.Keys)
      ensures taken.Contents() == old(already.Contents()) + RelayTaken(m, addr, order)
    {
      taken, left, order := already, map[], [];
      var todo := m.Keys;
      ghost var done := {};
      NothingVisited(m, addr);
      hide SentBy, NotSentBy, RelayTaken, Visited;
      while todo != {}
        invariant taken.Valid() && (taken.arr == already.arr || fresh(taken.arr))
        invariant done + todo == m.Keys && done !! todo && Visited(m, addr, done, order, left)
        invariant (forall i | 0 <= i < |order| :: order[i] in m) &&
                  taken.Contents() == old(already.Contents()) + RelayTaken(m, addr, order)
        decreases todo
      {
        var shardID :| shardID in todo;
        var sent, kept := SplitQueue(m[shardID], addr);
        taken := Append(taken, sent.Contents());
        VisitNext(m, addr, done, order, left, shardID);
        if kept.len > 0 {
          left := left[shardID := kept.Contents()];
        }
        todo, done := todo - {shardID}, done + {shardID};
        order := order + [shardID];
      }
      assert done == m.Keys;
      AllVisited(m, addr, order, left);
    }
  }

  /** The keys done were visited in the given order and left what stays of their pools. */
  ghost predicate Visited(
    m: map<nat, seq<Transaction>>, addr: Address, done: set<nat>, order: seq<nat>, left: map<nat, seq<Transaction>>)
  {
    OrderOf(order, done) && done <= m.Keys &&
    (forall k :: k in left <==> k in done && NotSentBy(m[k], addr) != []) &&
    forall k | k in left :: left[k] == NotSentBy(m[k], addr)
  }

  lemma NothingVisited(m: map<nat, seq<Transaction>>, addr: Address)
    ensures Visited(m, addr, {}, [], map[]) && RelayTaken(m, addr, []) == []
  {
  }

  lemma VisitNext(
    m: map<nat, seq<Transaction>>, addr: Address, done: set<nat>, order: seq<nat>, left: map<nat, seq<Transaction>>,
    k: nat)
    requires Visited(m, addr, done, order, left) && k in m && k !in done
    ensures forall i | 0 <= i < |order + [k]| :: (order + [k])[i] in m
    ensures RelayTaken(m, addr, order + [k]) == RelayTaken(m, addr, order) + SentBy(m[k], addr)
    ensures var stays := NotSentBy(m[k], addr);
            Visited(m, addr, done + {k}, order + [k], if |stays| > 0 then left[k := stays] else left)
  {
    assert (order + [k])[..|order|] == order;
  }

  lemma AllVisited(m: map<nat, seq<Transaction>>, addr: Address, order: seq<nat>, left: map<nat, seq<Transaction>>)
    requires Visited(m, addr, m.Keys, order, left)
    ensures left == RelayLeft(m, addr) && OrderOf(order, m.Keys)
  {
  }

  /** The relay pools, one after the other. */
  function RelayAll(m: map<nat, seq<Transaction>>, order: seq<nat>): (r: seq<Transaction>)
    requires forall i | 0 <= i < |order| :: order[i] in m
  {
    if order == [] then [] else RelayAll(m, order[..|order| - 1]) + m[order[|order| - 1]]
  }

  /** What stays, in that order; shards that keep nothing contribute nothing. */
  function RelayStays(m: map<nat, seq<Transaction>>, addr: Address, order: seq<nat>): (r: seq<Transaction>)
    requires forall i | 0 <= i < |order| :: order[i] in m
  {
    if order == [] then []
    else
      var left, last := RelayLeft(m, addr), order[|order| - 1];
      RelayStays(m, addr, order[..|order| - 1]) + if last in left then left[last] else []
  }

  /** For every iteration order the transfer loses and duplicates no relayed transaction. */
  lemma {:induction false} RelayTransferConserves(m: map<nat, seq<Transaction>>, addr: Address, order: seq<nat>)
    requires forall i | 0 <= i < |order| :: order[i] in m
    ensures multiset(RelayTaken(m, addr, order)) + multiset(RelayStays(m, addr, order))
         == multiset(RelayAll(m, order))
  {
    if order != [] {
      var last := order[|order| - 1];
      RelayTransferConserves(m, addr, order[..|order| - 1]);
      SplitKeepsAll(m[last], addr);
      assert (if last in RelayLeft(m, addr) then RelayLeft(m, addr)[last] else []) == NotSentBy(m[last], addr);
    }
  }

  /** A batch in the part of the array that the queue covers shows the queue's transactions. */
  lemma CoveredBatchShowsQueue(queue: TxSlice, b: TxSlice)
    requires queue.Valid() && b.Valid() && queue.arr == b.arr && queue.off <= b.off && b.End() <= queue.End()
    ensures b.Contents() == queue.Contents()[b.off - queue.off..b.End() - queue.off]
  {
  }

  method PackOne(pool: TxPool, ghost first: Transaction, ghost rest: seq<Transaction>) returns (batch: TxSlice)
    requires pool.Valid() && pool.Queue() == [first] + rest
    modifies pool`TxQueue, pool`packed
    ensures pool.Valid() && pool.Queue() == rest && pool.packed == old(pool.packed) + [batch]
    ensures batch.Valid() && batch.Contents() == [first] && batch == old(pool.TxQueue).(len := 1)
    ensures pool.TxQueue == Slice(batch.arr, batch.off + 1, |rest|, batch.cap - 1)
  {
    FrontOne(first, rest);
    hide ContentsOf, Flatten, Front, LaidOut;
    batch := pool.PackTxs(1);
    SameTail(first, pool.Queue(), rest);
  }

  lemma SameTail(first: Transaction, a: seq<Transaction>, b: seq<Transaction>)
    ensures [first] + a == [first] + b ==> a == b
  {
    assert ([first] + a)[1..] == a && ([first] + b)[1..] == b;
  }

  lemma FrontOne(first: Transaction, rest: seq<Transaction>)
    ensures Front([first] + rest, 1) == [first]
  {
  }

  lemma TwoStamped(a: Transaction, b: Transaction, now: nat)
    ensures [] + StampAll([a, b], now) == [Stamp(a, now)] + [Stamp(b, now)]
  {
  }

  /** Two outstanding batches of one transaction each, next to one another in the same array. */
  method TwoBatches(a: Transaction, b: Transaction, now: nat) returns (pool: TxPool, older: TxSlice, newer: TxSlice)
    ensures fresh(pool) && fresh(older.arr) && pool.Valid() && pool.TxQueue.len == 0 && pool.packed == [older, newer]
    ensures older.Valid() && older.len == 1 && older.Contents() == [Stamp(a, now)]
    ensures newer == Slice(older.arr, older.off + 1, 1, older.cap - 1)
    ensures newer.Valid() && newer.Contents() == [Stamp(b, now)]
  {
    hide ContentsOf, Flatten, Stamp, LaidOut, Slice.Contents;
    pool := new TxPool();
    TwoStamped(a, b, now);
    pool.AddTxs2Pool([a, b], now);
    assert pool.Queue() == [Stamp(a, now)] + [Stamp(b, now)] && fresh(pool.TxQueue.arr);
    older := PackOne(pool, Stamp(a, now), [Stamp(b, now)]);
    assert [Stamp(b, now)] == [Stamp(b, now)] + [];
    newer := PackOne(pool, Stamp(b, now), []);
  }

  /**
   * Pushing back an older batch can overwrite a newer one: the older of two outstanding batches is pushed back, and
   * the next transaction to enter the pool is written over the newer.
   */
  method OlderBatchOverwritesNewer(a: Transaction, b: Transaction, c: Transaction, now: nat)
    returns (older: TxSlice, newer: TxSlice, ghost newerBefore: seq<Transaction>)
    ensures older.Valid() && newer.Valid() && older.Contents() == [Stamp(a, now)]
    ensures newerBefore == [Stamp(b, now)] && newer.Contents() == [Stamp(c, now)]
  {
    hide ContentsOf, Flatten, Stamp, Overwritten, Without, Returnable, LaidOut;
    var pool;
    pool, older, newer := TwoBatches(a, b, now);
    newerBefore := newer.Contents();
    assert pool.Queue() == [] && older.Contents() + [] == [Stamp(a, now)];
    pool.AddTxs2Pool_Head(older, 0);
    assert pool.Queue() == [Stamp(a, now)] && pool.TxQueue == older;
    pool.AddTx2Pool(c, now);
    assert pool.Queue() == [Stamp(a, now), Stamp(c, now)];
    CoveredBatchShowsQueue(pool.TxQueue, newer);
  }
}
