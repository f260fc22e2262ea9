/** query/query_block.go and the block index of main.go: scans of the block bucket and what the dashboard shows. */
module Dashboard {
  import opened Wrappers
  import opened Bytes
  import opened Addresses
  import opened Transactions
  import opened Blocks
  import opened Storage

  type Bucket = map<BlockHash, Block>

  /** An order in which a scan visits the bucket: every key once. */
  ghost predicate ScanOrder(keys: seq<BlockHash>, bucket: Bucket) {
    (forall i | 0 <= i < |keys| :: keys[i] in bucket) && (forall k | k in bucket :: k in keys) &&
    forall i, j | 0 <= i < j < |keys| :: keys[i] != keys[j]
  }

  // ----- query/query_block.go -----

  function ScanOf(bucket: Bucket, keys: seq<BlockHash>): (blocks: seq<Block>)
    requires forall i | 0 <= i < |keys| :: keys[i] in bucket
    ensures |blocks| == |keys| && forall i | 0 <= i < |keys| :: blocks[i] == bucket[keys[i]]
  {
    seq(|keys|, i requires 0 <= i < |keys| && keys[i] in bucket => bucket[keys[i]])
  }

  method QueryBlocks(bucket: Bucket, keys: seq<BlockHash>) returns (blocks: seq<Block>)
    requires ScanOrder(keys, bucket)
    ensures blocks == ScanOf(bucket, keys)
  {
    blocks := [];
    for i := 0 to |keys|
      invariant |blocks| == i && forall j | 0 <= j < i :: blocks[j] == bucket[keys[j]]
    {
      blocks := blocks + [bucket[keys[i]]];
    }
  }

  /** The last block of that height in scan order. */
  function LastMatch(bucket: Bucket, keys: seq<BlockHash>, number: nat): (r: Option<Block>)
    requires forall i | 0 <= i < |keys| :: keys[i] in bucket
  {
    if keys == [] then None
    else
      var n := |keys| - 1;
      if bucket[keys[n]].header.number == number then Some(bucket[keys[n]]) else LastMatch(bucket, keys[..n], number)
  }

  /** None is the empty block returned when no height matches. */
  method QueryBlock(bucket: Bucket, keys: seq<BlockHash>, number: nat) returns (block: Option<Block>)
    requires ScanOrder(keys, bucket)
    ensures block == LastMatch(bucket, keys, number)
  {
    assert keys[..|keys|] == keys;
    block := None;
    for i := 0 to |keys|
      invariant block == LastMatch(bucket, keys[..i], number)
    {
      assert keys[..i + 1][..i] == keys[..i];
      var res := bucket[keys[i]];
      if res.header.number == number {
        block := Some(res);
      }
    }
  }

  method QueryBlockTxs(bucket: Bucket, keys: seq<BlockHash>, number: nat) returns (txs: seq<Transaction>)
    requires ScanOrder(keys, bucket)
    ensures txs == match LastMatch(bucket, keys, number) case None => [] case Some(b) => b.body
  {
    var block := QueryBlock(bucket, keys, number);
    txs := if block.None? then [] else block.value.body;
  }

  lemma {:induction false} LastMatchFinds(bucket: Bucket, keys: seq<BlockHash>, number: nat)
    requires forall i | 0 <= i < |keys| :: keys[i] in bucket
    ensures var r := LastMatch(bucket, keys, number);
            if r.Some? then
              r.value.header.number == number &&
              exists i :: 0 <= i < |keys| && bucket[keys[i]] == r.value &&
                          forall j | i < j < |keys| :: bucket[keys[j]].header.number != number
            else forall i | 0 <= i < |keys| :: bucket[keys[i]].header.number != number
  {
    if keys != [] {
      LastMatchFinds(bucket, keys[..|keys| - 1], number);
    }
  }

  /** Every stored block is the chain's block of its height. */
  lemma StoredIsInChain(d: DiskState, chain: seq<Block>, h: BlockHash) returns (m: nat)
    requires ChainShape(d, chain) && h in d.blocks
    ensures m < |chain| && d.blocks[h] == chain[m] && chain[m].hash == h && chain[m].header.number == m
  {
    assert HashIn(chain, h);
    m :| m < |chain| && chain[m].hash == h;
  }

  lemma ChainIsStored(d: DiskState, chain: seq<Block>, m: nat)
    requires ChainShape(d, chain) && m < |chain|
    ensures chain[m].hash in d.blocks && d.blocks[chain[m].hash] == chain[m] && chain[m].header.number == m
  {
  }

  /** On a stored chain the scan by height finds exactly the block of that height, in whatever order it visits. */
  lemma ScanByHeightIsExact(d: DiskState, chain: seq<Block>, keys: seq<BlockHash>, number: nat)
    requires ChainShape(d, chain) && ScanOrder(keys, d.blocks)
    ensures LastMatch(d.blocks, keys, number) == if number < |chain| then Some(chain[number]) else None
  {
    hide ChainShape;
    if number < |chain| {
      ChainIsStored(d, chain, number);
      assert chain[number].hash in keys;
    }
    LastMatchFinds(d.blocks, keys, number);
    var r := LastMatch(d.blocks, keys, number);
    if r.Some? {
      var i :| 0 <= i < |keys| && d.blocks[keys[i]] == r.value;
      var _ := StoredIsInChain(d, chain, keys[i]);
    }
  }

  // ----- The index of the dashboard -----

  datatype BlockView = BlockView(
    height: nat, txCount: nat, hash: BlockHash, parentHash: BlockHash, timestampRaw: nat, isLatest: bool)

  datatype IndexedBlock = IndexedBlock(view: BlockView, height: nat)

  datatype ShardStore = ShardStore(
    latestHeight: nat, latestHash: BlockHash, blocks: seq<BlockView>, byHash: map<BlockHash, IndexedBlock>)

  function ViewOf(b: Block): (v: BlockView) {
    BlockView(b.header.number, |b.body|, b.hash, b.header.parentBlockHash, b.header.time, false)
  }

  function ViewsOf(blocks: seq<Block>): (views: seq<BlockView>)
    ensures |views| == |blocks| && forall i | 0 <= i < |blocks| :: views[i] == ViewOf(blocks[i])
  {
    seq(|blocks|, i requires 0 <= i < |blocks| => ViewOf(blocks[i]))
  }

  function IndexOf(blocks: seq<Block>): (index: map<BlockHash, IndexedBlock>) {
    if blocks == [] then map[]
    else
      var n := |blocks| - 1;
      IndexOf(blocks[..n])[blocks[n].hash := IndexedBlock(ViewOf(blocks[n]), blocks[n].header.number)]
  }

  /** The order of the hash texts. */
  type HashOrder = (BlockHash, BlockHash) -> bool

  /** The comparison of sort.Slice: by height, then by hash. */
  predicate Before(less: HashOrder, v: BlockView, w: BlockView) {
    v.height < w.height || (v.height == w.height && less(v.hash, w.hash))
  }

  function Insert(less: HashOrder, v: BlockView, views: seq<BlockView>): (r: seq<BlockView>)
    ensures multiset(r) == multiset(views) + multiset{v}
  {
    if views == [] then [v]
    else
      var n := |views| - 1;
      assert views == views[..n] + [views[n]];
      if Before(less, v, views[n]) then Insert(less, v, views[..n]) + [views[n]] else views + [v]
  }

  /** sort.Slice. */
  function Sort(less: HashOrder, views: seq<BlockView>): (r: seq<BlockView>)
    ensures multiset(r) == multiset(views)
  {
    if views == [] then []
    else
      var n := |views| - 1;
      assert views == views[..n] + [views[n]];
      Insert(less, views[n], Sort(less, views[..n]))
  }

  /** The height and hash of the last of the highest views. */
  function Latest(views: seq<BlockView>): (r: (nat, BlockHash)) {
    if views == [] then (0, NoHash)
    else
      var n := |views| - 1;
      var before := Latest(views[..n]);
      if views[n].height >= before.0 then (views[n].height, views[n].hash) else before
  }

  function MarkLatest(views: seq<BlockView>, latest: (nat, BlockHash)): (r: seq<BlockView>)
    ensures |r| == |views|
    ensures forall i | 0 <= i < |views| ::
              r[i] == views[i].(isLatest := views[i].height == latest.0 && views[i].hash == latest.1)
  {
    seq(|views|, i requires 0 <= i < |views| =>
      views[i].(isLatest := views[i].height == latest.0 && views[i].hash == latest.1))
  }

  /** What loadShardBlocksFromQuery and loadShardStores build from the scanned blocks. */
  function StoreOf(less: HashOrder, blocks: seq<Block>): (s: ShardStore) {
    var views := Sort(less, ViewsOf(blocks));
    var latest := Latest(views);
    ShardStore(latest.0, latest.1, MarkLatest(views, latest), IndexOf(blocks))
  }

  /** The loop of loadShardBlocksFromQuery. */
  method BuildIndex(blocks: seq<Block>) returns (views: seq<BlockView>, index: map<BlockHash, IndexedBlock>)
    ensures views == ViewsOf(blocks) && index == IndexOf(blocks)
  {
    views, index := [], map[];
    assert blocks[..|blocks|] == blocks;
    for i := 0 to |blocks|
      invariant |views| == i && index == IndexOf(blocks[..i])
      invariant forall j | 0 <= j < i :: views[j] == ViewOf(blocks[j])
    {
      assert blocks[..i + 1][..i] == blocks[..i];
      views := views + [ViewOf(blocks[i])];
      index := index[blocks[i].hash := IndexedBlock(ViewOf(blocks[i]), blocks[i].header.number)];
    }
  }

  /** The two loops of loadShardStores. */
  method FindLatest(views: seq<BlockView>) returns (latestHeight: nat, latestHash: BlockHash, blocks: seq<BlockView>)
    ensures (latestHeight, latestHash) == Latest(views) && blocks == MarkLatest(views, Latest(views))
  {
    assert views[..|views|] == views;
    latestHeight, latestHash := 0, NoHash;
    for i := 0 to |views|
      invariant (latestHeight, latestHash) == Latest(views[..i])
    {
      assert views[..i + 1][..i] == views[..i];
      if views[i].height >= latestHeight {
        latestHeight, latestHash := views[i].height, views[i].hash;
      }
    }
    blocks := views;
    for i := 0 to |views|
      invariant |blocks| == |views|
      invariant forall j | 0 <= j < i :: blocks[j] == MarkLatest(views, (latestHeight, latestHash))[j]
      invariant forall j | i <= j < |views| :: blocks[j] == views[j]
    {
      var latest := blocks[i].height == latestHeight && latestHash == blocks[i].hash;
      blocks := blocks[i := blocks[i].(isLatest := latest)];
    }
  }

  method LoadShardStore(less: HashOrder, bucket: Bucket, keys: seq<BlockHash>) returns (s: ShardStore)
    requires ScanOrder(keys, bucket)
    ensures s == StoreOf(less, ScanOf(bucket, keys))
  {
    var blocks := QueryBlocks(bucket, keys);
    var views, index := BuildIndex(blocks);
    var latestHeight, latestHash, marked := FindLatest(Sort(less, views));
    s := ShardStore(latestHeight, latestHash, marked, index);
  }

  function QueryNewestBlock(s: ShardStore): (v: Option<BlockView>) {
    if |s.blocks| == 0 then None else Some(s.blocks[|s.blocks| - 1])
  }

  // ----- The store of a chain -----

  ghost predicate Ascending(views: seq<BlockView>) {
    forall i, j | 0 <= i < j < |views| :: views[i].height < views[j].height
  }

  lemma InsertMembers(less: HashOrder, v: BlockView, views: seq<BlockView>, x: BlockView)
    ensures x in Insert(less, v, views) ==> x == v || x in views
  {
    assert x in Insert(less, v, views) ==> x in multiset(Insert(less, v, views));
  }

  lemma SortMembers(less: HashOrder, views: seq<BlockView>, x: BlockView)
    ensures x in Sort(less, views) <==> x in views
  {
    assert x in Sort(less, views) <==> x in multiset(Sort(less, views));
    assert x in multiset(views) <==> x in views;
  }

  lemma {:induction false} InsertAscending(less: HashOrder, v: BlockView, views: seq<BlockView>)
    requires Ascending(views) && forall i | 0 <= i < |views| :: views[i].height != v.height
    ensures Ascending(Insert(less, v, views))
  {
    if views != [] && views[|views| - 1].height > v.height {
      var n := |views| - 1;
      var front := Insert(less, v, views[..n]);
      InsertAscending(less, v, views[..n]);
      forall i | 0 <= i < |front| ensures front[i].height < views[n].height {
        InsertMembers(less, v, views[..n], front[i]);
      }
    }
  }

  lemma {:induction false} SortAscending(less: HashOrder, views: seq<BlockView>)
    requires forall i, j | 0 <= i < j < |views| :: views[i].height != views[j].height
    ensures Ascending(Sort(less, views))
  {
    if views != [] {
      var n := |views| - 1;
      var front := Sort(less, views[..n]);
      SortAscending(less, views[..n]);
      forall i | 0 <= i < |front| ensures front[i].height != views[n].height {
        SortMembers(less, views[..n], front[i]);
      }
      InsertAscending(less, views[n], front);
    }
  }

  /** A linear order, as the order of texts is. */
  ghost predicate Linear(less: HashOrder) {
    (forall a, b :: a != b ==> less(a, b) != less(b, a)) && (forall a :: !less(a, a)) &&
    forall a, b, c :: less(a, b) && less(b, c) ==> less(a, c)
  }

  ghost predicate Sorted(less: HashOrder, views: seq<BlockView>) {
    forall i, j | 0 <= i < j < |views| ::
      views[i].height < views[j].height ||
      (views[i].height == views[j].height && !less(views[j].hash, views[i].hash))
  }

  /** What is not before w is not before anything at or below w. */
  lemma NotBefore(less: HashOrder, v: BlockView, w: BlockView, x: BlockView)
    requires Linear(less) && !Before(less, v, w) && !Before(less, w, x)
    ensures !Before(less, v, x)
  {
  }

  lemma {:induction false} InsertSorted(less: HashOrder, v: BlockView, views: seq<BlockView>)
    requires Linear(less) && Sorted(less, views)
    ensures Sorted(less, Insert(less, v, views))
  {
    if views != [] {
      var n := |views| - 1;
      var w := views[n];
      if Before(less, v, w) {
        var front := Insert(less, v, views[..n]);
        InsertSorted(less, v, views[..n]);
        forall i | 0 <= i < |front| ensures !Before(less, w, front[i]) {
          InsertMembers(less, v, views[..n], front[i]);
        }
      } else {
        forall i | 0 <= i < n ensures !Before(less, v, views[i]) {
          NotBefore(less, v, w, views[i]);
        }
      }
    }
  }

  /** The views are sorted by height, and by hash where heights are equal, whatever blocks the bucket holds. */
  lemma {:induction false} SortSorts(less: HashOrder, views: seq<BlockView>)
    requires Linear(less)
    ensures Sorted(less, Sort(less, views))
  {
    if views != [] {
      var n := |views| - 1;
      SortSorts(less, views[..n]);
      InsertSorted(less, views[n], Sort(less, views[..n]));
    }
  }

  /** Ascending lists with the same elements are the same list. */
  lemma {:induction false} AscendingUnique(a: seq<BlockView>, b: seq<BlockView>)
    requires Ascending(a) && Ascending(b)
    requires forall v :: v in a <==> v in b
    ensures a == b
  {
    assert b != [] ==> b[0] in a;
    if a != [] {
      assert a[0] in b;
      var m, n := |a| - 1, |b| - 1;
      assert a[m] in b && b[n] in a;
      assert a[m] == b[n];
      forall v ensures v in a[..m] <==> v in b[..n] {
        assert v in a[..m] <==> v in a && v != a[m];
        assert v in b[..n] <==> v in b && v != b[n];
      }
      AscendingUnique(a[..m], b[..n]);
    }
  }

  /** What the dashboard shows of a block. */
  predicate Presents(v: BlockView, b: Block, height: nat, latest: bool) {
    v.height == height == b.header.number && v.hash == b.hash && v.parentHash == b.header.parentBlockHash &&
    v.timestampRaw == b.header.time && v.txCount == |b.body| && v.isLatest == latest
  }

  ghost predicate ShowsChain(views: seq<BlockView>, chain: seq<Block>) {
    |views| == |chain| && forall i | 0 <= i < |chain| :: views[i] == ViewOf(chain[i])
  }

  lemma ChainAscends(d: DiskState, chain: seq<Block>)
    requires ChainShape(d, chain)
    ensures Ascending(ViewsOf(chain))
  {
  }

  lemma SortedScanShowsChain(less: HashOrder, d: DiskState, chain: seq<Block>, keys: seq<BlockHash>)
    requires ChainShape(d, chain) && ScanOrder(keys, d.blocks)
    ensures ShowsChain(Sort(less, ViewsOf(ScanOf(d.blocks, keys))), chain)
  {
    ChainAscends(d, chain);
    hide Sort, ChainShape;
    var blocks := ScanOf(d.blocks, keys);
    var views, target := ViewsOf(blocks), ViewsOf(chain);
    forall i, j | 0 <= i < j < |views| ensures views[i].height != views[j].height {
      var m := StoredIsInChain(d, chain, keys[i]);
      var n := StoredIsInChain(d, chain, keys[j]);
    }
    SortAscending(less, views);
    forall v ensures v in Sort(less, views) <==> v in target {
      SortMembers(less, views, v);
      ScannedViews(d, chain, keys, v);
    }
    AscendingUnique(Sort(less, views), target);
  }

  lemma ScannedViews(d: DiskState, chain: seq<Block>, keys: seq<BlockHash>, v: BlockView)
    requires ChainShape(d, chain) && ScanOrder(keys, d.blocks)
    ensures v in ViewsOf(ScanOf(d.blocks, keys)) <==> v in ViewsOf(chain)
  {
    hide ChainShape;
    var views, target := ViewsOf(ScanOf(d.blocks, keys)), ViewsOf(chain);
    if v in views {
      var i :| 0 <= i < |views| && views[i] == v;
      var m := StoredIsInChain(d, chain, keys[i]);
      assert target[m] == v;
    }
    if v in target {
      var m :| 0 <= m < |chain| && target[m] == v;
      ChainIsStored(d, chain, m);
      var i :| 0 <= i < |keys| && keys[i] == chain[m].hash;
      assert views[i] == v;
    }
  }

  /** The latest view is one of the greatest height, and the last of those; only views like it are marked. */
  lemma {:induction false} LatestIsLastHighest(views: seq<BlockView>) returns (i: nat)
    requires views != []
    ensures i < |views| && Latest(views) == (views[i].height, views[i].hash)
    ensures forall j | 0 <= j < |views| :: if j <= i then views[j].height <= views[i].height
                                           else views[j].height < views[i].height
  {
    var n := |views| - 1;
    i := n;
    if n > 0 {
      var before := LatestIsLastHighest(views[..n]);
      if views[n].height < views[before].height {
        i := before;
      }
    }
  }

  lemma {:induction false} LatestOfChain(views: seq<BlockView>, chain: seq<Block>)
    requires ShowsChain(views, chain) && chain != [] && forall i | 0 <= i < |chain| :: chain[i].header.number == i
    ensures Latest(views) == (|chain| - 1, chain[|chain| - 1].hash)
  {
    if |chain| > 1 {
      LatestOfChain(views[..|views| - 1], chain[..|chain| - 1]);
    }
  }

  /**
   * The dashboard's index of a stored chain, whatever the scan order: the blocks by height, only the last one marked
   * latest, and every notion of the newest block naming height n.
   */
  lemma IndexShowsChain(less: HashOrder, d: DiskState, chain: seq<Block>, keys: seq<BlockHash>)
    requires ChainShape(d, chain) && ScanOrder(keys, d.blocks)
    ensures var s, n := StoreOf(less, ScanOf(d.blocks, keys)), |chain| - 1;
            |s.blocks| == |chain| &&
            (forall i | 0 <= i <= n :: Presents(s.blocks[i], chain[i], i, i == n)) &&
            s.latestHeight == n && s.latestHash == chain[n].hash && d.newest == Some(s.latestHash) &&
            QueryNewestBlock(s) == Some(s.blocks[n])
  {
    var views := Sort(less, ViewsOf(ScanOf(d.blocks, keys)));
    SortedScanShowsChain(less, d, chain, keys);
    LatestOfChain(views, chain);
    assert forall i | 0 <= i < |chain| :: chain[i].header.number == i;
  }

  // ----- Transactions of a block -----

  predicate IsSpace(c: char) {
    c in " \t\n\r" || c as int in {0x0B, 0x0C, 0x85, 0xA0, 0x1680, 0x2028, 0x2029, 0x202F, 0x205F, 0x3000} ||
    0x2000 <= c as int <= 0x200A
  }

  function TrimSpace(s: string): (t: string)
    ensures t != "" ==> !IsSpace(t[0]) && !IsSpace(t[|t| - 1])
  {
    if s == "" then ""
    else if IsSpace(s[0]) then TrimSpace(s[1..])
    else if IsSpace(s[|s| - 1]) then TrimSpace(s[..|s| - 1])
    else s
  }

  function BigIntText(v: int): (s: string) {
    if v < 0 then "-" + Itoa(-v) else Itoa(v)
  }

  function EncodeHash(primary: seq<Byte>, fallback: seq<Byte>): (s: string) {
    if |primary| > 0 then HexEncode(primary) else HexEncode(fallback)
  }

  datatype TransactionView = TransactionView(
    index: nat, sender: string, recipient: string, value: string, nonce: nat, txHash: string,
    originalSender: string, finalRecipient: string, relayed: bool, hasBroker: bool, senderIsBroker: bool)

  function TxViewOf(index: nat, tx: Transaction): (v: TransactionView) {
    TransactionView(
      index, TrimSpace(tx.sender), TrimSpace(tx.recipient), BigIntText(tx.value), tx.nonce,
      EncodeHash(tx.txHash, tx.rawTxHash), TrimSpace(tx.originalSender), TrimSpace(tx.finalRecipient),
      tx.relayed, tx.hasBroker, tx.senderIsBroker)
  }

  /** A limit that is not positive, or exceeds the body, shows the whole body. */
  method BuildTransactionViews(body: seq<Transaction>, limit: int) returns (views: seq<TransactionView>)
    ensures |views| == if 0 < limit < |body| then limit else |body|
    ensures forall i | 0 <= i < |views| :: views[i] == TxViewOf(i + 1, body[i])
  {
    if |body| == 0 {
      return [];
    }
    var n := if limit <= 0 || limit > |body| then |body| else limit;
    views := [];
    for i := 0 to n
      invariant |views| == i && forall j | 0 <= j < i :: views[j] == TxViewOf(j + 1, body[j])
    {
      views := views + [TxViewOf(i + 1, body[i])];
    }
  }

  const SHOWN_TRANSACTIONS := 100

  /** From the hash through the loaded index to a height, and from the height to a scan of the current bucket. */
  method QueryBlockTransactions(s: ShardStore, bucket: Bucket, keys: seq<BlockHash>, hash: BlockHash)
    returns (views: seq<TransactionView>)
    requires ScanOrder(keys, bucket)
    ensures hash !in s.byHash ==> views == []
    ensures hash in s.byHash ==>
              var body := match LastMatch(bucket, keys, s.byHash[hash].height) case None => [] case Some(b) => b.body;
              |views| == (if |body| > 100 then 100 else |body|) &&
              forall i | 0 <= i < |views| :: views[i] == TxViewOf(i + 1, body[i])
  {
    if hash !in s.byHash {
      return [];
    }
    var txs := QueryBlockTxs(bucket, keys, s.byHash[hash].height);
    views := BuildTransactionViews(txs, SHOWN_TRANSACTIONS);
  }

  lemma {:induction false} IndexFinds(blocks: seq<Block>, hash: BlockHash)
    ensures var index := IndexOf(blocks);
            if hash in index then exists i :: 0 <= i < |blocks| && blocks[i].hash == hash &&
                                              index[hash] == IndexedBlock(ViewOf(blocks[i]), blocks[i].header.number)
            else forall i | 0 <= i < |blocks| :: blocks[i].hash != hash
  {
    if blocks != [] {
      IndexFinds(blocks[..|blocks| - 1], hash);
    }
  }

  /**
   * Looking a block up by hash through its height is exact, even when blocks were stored after the index was loaded:
   * the height found under a hash selects, in the later bucket, the very block stored under that hash; and hashes of
   * no loaded block are not found.
   */
  lemma HashLookupIsExact(
    less: HashOrder, loaded: DiskState, early: seq<Block>, earlyKeys: seq<BlockHash>, now: DiskState, chain: seq<Block>,
    keys: seq<BlockHash>, hash: BlockHash)
    requires ChainShape(loaded, early) && ScanOrder(earlyKeys, loaded.blocks)
    requires ChainShape(now, chain) && ScanOrder(keys, now.blocks) && early <= chain
    ensures var index := StoreOf(less, ScanOf(loaded.blocks, earlyKeys)).byHash;
            (hash in index <==> hash in loaded.blocks) &&
            (hash in index ==>
              hash in now.blocks && now.blocks[hash] == loaded.blocks[hash] &&
              LastMatch(now.blocks, keys, index[hash].height) == Some(now.blocks[hash]))
  {
    hide ChainShape;
    var index := StoreOf(less, ScanOf(loaded.blocks, earlyKeys)).byHash;
    IndexNamesHeight(less, loaded, early, earlyKeys, hash);
    if hash in index {
      var m := index[hash].height;
      ChainIsStored(loaded, early, m);
      ChainIsStored(now, chain, m);
      ScanByHeightIsExact(now, chain, keys, m);
    }
  }

  /** The index holds exactly the loaded hashes, each with the height of its block in the chain. */
  lemma IndexNamesHeight(less: HashOrder, d: DiskState, chain: seq<Block>, keys: seq<BlockHash>, hash: BlockHash)
    requires ChainShape(d, chain) && ScanOrder(keys, d.blocks)
    ensures var index := StoreOf(less, ScanOf(d.blocks, keys)).byHash;
            (hash in index <==> hash in d.blocks) &&
            (hash in index ==> index[hash].height < |chain| && chain[index[hash].height].hash == hash)
  {
    hide ChainShape;
    var blocks := ScanOf(d.blocks, keys);
    IndexFinds(blocks, hash);
    forall i | 0 <= i < |blocks|
      ensures blocks[i].hash == keys[i]
      ensures blocks[i].header.number < |chain| && chain[blocks[i].header.number] == blocks[i]
    {
      var _ := StoredIsInChain(d, chain, keys[i]);
    }
    if hash in d.blocks {
      var i :| 0 <= i < |keys| && keys[i] == hash;
      assert blocks[i].hash == hash;
    }
  }
}
