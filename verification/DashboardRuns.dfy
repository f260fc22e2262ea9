/** What the dashboard shows of the disk of a node, at any two points of a run. */
module DashboardRuns {
  import opened Wrappers
  import opened Transactions
  import opened Blocks
  import opened Storage
  import opened NodeStates
  import opened RunLaws
  import opened Dashboard

  /** The chain of a run only grows. */
  lemma {:induction false} ChainGrows(cfg: ChainConfig, events: seq<Event>, i: nat)
    requires i <= |events|
    ensures ChainOf(cfg, events[..i]) <= ChainOf(cfg, events)
    decreases |events|
  {
    hide Stores, StoringOf, Run;
    if i == |events| {
      assert events[..i] == events;
    } else {
      var n := |events| - 1;
      assert events[..n][..i] == events[..i] && events[..n + 1] == events;
      ChainGrows(cfg, events[..n], i);
      ChainNext(cfg, events, n);
    }
  }

  /** Each height stays stored exactly once, and the genesis block has been stored by event i. */
  ghost predicate Readable(cfg: ChainConfig, events: seq<Event>, i: nat) {
    i <= |events| && Clean(cfg, events) && ChainOf(cfg, events[..i]) != []
  }

  lemma ReadableIsChain(cfg: ChainConfig, events: seq<Event>, i: nat)
    requires Readable(cfg, events, i)
    ensures ChainShape(Run(cfg, events[..i]).Disk(), ChainOf(cfg, events[..i]))
  {
    hide Clean, Shaped, Run, ChainOf;
    RunsKeepShapeExactly(cfg, events);
    ShapedIsChainShape(Run(cfg, events[..i]).Disk(), ChainOf(cfg, events[..i]));
  }

  /** So the dashboard's index of a node's disk shows the node's chain, at every point of such a run. */
  lemma RunIndexShowsChain(
    cfg: ChainConfig, events: seq<Event>, i: nat, less: HashOrder, keys: seq<BlockHash>)
    requires Readable(cfg, events, i) && ScanOrder(keys, Run(cfg, events[..i]).Disk().blocks)
    ensures var d, chain := Run(cfg, events[..i]).Disk(), ChainOf(cfg, events[..i]);
            var s, n := StoreOf(less, ScanOf(d.blocks, keys)), |chain| - 1;
            |s.blocks| == |chain| &&
            (forall j | 0 <= j <= n :: Presents(s.blocks[j], chain[j], j, j == n)) &&
            s.latestHeight == n && d.newest == Some(s.latestHash) &&
            (Run(cfg, events[..i]).Up? ==> s.latestHash == Run(cfg, events[..i]).node.chain.current.hash)
  {
    hide ChainShape, Clean, Run, ChainOf, StoreOf, ScanOf, Linked;
    ReadableIsChain(cfg, events, i);
    RunsFormChain(cfg, events[..i]);
    IndexShowsChain(less, Run(cfg, events[..i]).Disk(), ChainOf(cfg, events[..i]), keys);
  }

  /**
   * And an index loaded at point i finds, in the bucket at any later point k, the very block stored under a hash,
   * and finds no hash that was not stored at point i.
   */
  lemma RunHashLookupIsExact(
    cfg: ChainConfig, events: seq<Event>, i: nat, k: nat, less: HashOrder, earlyKeys: seq<BlockHash>,
    keys: seq<BlockHash>, hash: BlockHash)
    requires Readable(cfg, events, i) && i <= k <= |events|
    requires ScanOrder(earlyKeys, Run(cfg, events[..i]).Disk().blocks)
    requires ScanOrder(keys, Run(cfg, events[..k]).Disk().blocks)
    ensures var loaded, bucket := Run(cfg, events[..i]).Disk().blocks, Run(cfg, events[..k]).Disk().blocks;
            var index := StoreOf(less, ScanOf(loaded, earlyKeys)).byHash;
            (hash in index <==> hash in loaded) &&
            (hash in index ==>
              hash in bucket && bucket[hash] == loaded[hash] &&
              LastMatch(bucket, keys, index[hash].height) == Some(bucket[hash]))
  {
    hide ChainShape, Clean, Run, ChainOf, StoreOf, ScanOf, LastMatch;
    assert events[..k][..i] == events[..i];
    ChainGrows(cfg, events[..k], i);
    ReadableIsChain(cfg, events, i);
    ReadableIsChain(cfg, events, k);
    HashLookupIsExact(
      less, Run(cfg, events[..i]).Disk(), ChainOf(cfg, events[..i]), earlyKeys, Run(cfg, events[..k]).Disk(),
      ChainOf(cfg, events[..k]), keys, hash);
  }
}
