/** storage/storage.go: the persistent buckets of a shard's node, as they look between any two writes. */
module Storage {
  import opened Wrappers
  import opened Blocks

  /** The bolt buckets, and the state tries committed to the node's trie database. */
  datatype DiskState = DiskState(
    blocks: map<BlockHash, Block>, headers: map<BlockHash, BlockHeader>, newest: Option<BlockHash>,
    committed: set<StateRoot>)

  /** One atomic write: a bolt transaction, or a trie commit. */
  datatype DiskWrite =
    | PutBlock(block: Block)
    | PutHeader(key: BlockHash, header: BlockHeader)
    | PutNewest(key: BlockHash)
    | CommitTrie(root: StateRoot)

  function ApplyWrite(d: DiskState, w: DiskWrite): (r: DiskState) {
    match w
    case PutBlock(b) => d.(blocks := d.blocks[b.hash := b])
    case PutHeader(key, header) => d.(headers := d.headers[key := header])
    case PutNewest(key) => d.(newest := Some(key))
    case CommitTrie(root) => d.(committed := d.committed + {root})
  }

  function ApplyWrites(d: DiskState, ws: seq<DiskWrite>): (r: DiskState) {
    if ws == [] then d else ApplyWrite(ApplyWrites(d, ws[..|ws| - 1]), ws[|ws| - 1])
  }

  const BLANK := DiskState(map[], map[], None, {})

  /** What AddBlock writes, in order. */
  function BlockWrites(b: Block): (ws: seq<DiskWrite>) {
    [PutBlock(b), PutHeader(b.hash, b.header), PutNewest(b.hash)]
  }

  /** The disk once all three writes have reached it. */
  function Store(d: DiskState, b: Block): (r: DiskState) {
    d.(blocks := d.blocks[b.hash := b], headers := d.headers[b.hash := b.header], newest := Some(b.hash))
  }

  lemma ApplySnoc(d: DiskState, ws: seq<DiskWrite>, w: DiskWrite)
    ensures ApplyWrites(d, ws + [w]) == ApplyWrite(ApplyWrites(d, ws), w)
  {
    assert (ws + [w])[..|ws|] == ws;
  }

  lemma {:induction false} ApplyAppend(d: DiskState, ws: seq<DiskWrite>, more: seq<DiskWrite>)
    ensures ApplyWrites(d, ws + more) == ApplyWrites(ApplyWrites(d, ws), more)
  {
    if more == [] {
      assert ws + more == ws;
    } else {
      var n := |more| - 1;
      ApplyAppend(d, ws, more[..n]);
      ApplySnoc(d, ws + more[..n], more[n]);
      assert ws + more[..n] + [more[n]] == ws + more;
    }
  }

  lemma ApplyBlockWrites(d: DiskState, b: Block)
    ensures ApplyWrites(d, BlockWrites(b)[..1]) == d.(blocks := d.blocks[b.hash := b])
    ensures ApplyWrites(d, BlockWrites(b)[..2])
         == d.(blocks := d.blocks[b.hash := b], headers := d.headers[b.hash := b.header])
    ensures ApplyWrites(d, BlockWrites(b)) == Store(d, b)
  {
    var ws := BlockWrites(b);
    assert ws[..1] == [] + [ws[0]] && ws[..2] == ws[..1] + [ws[1]] && ws == ws[..2] + [ws[2]];
    ApplySnoc(d, [], ws[0]);
    ApplySnoc(d, ws[..1], ws[1]);
    ApplySnoc(d, ws[..2], ws[2]);
  }

  // ----- Crashes -----

  /** The writes a crash lets through. */
  function Cut(ws: seq<DiskWrite>, kept: nat): (r: seq<DiskWrite>)
    ensures r <= ws
  {
    if kept < |ws| then ws[..kept] else ws
  }

  predicate OnlyCommits(ws: seq<DiskWrite>) {
    forall i | 0 <= i < |ws| :: ws[i].CommitTrie?
  }

  function CommittedBy(ws: seq<DiskWrite>): (roots: set<StateRoot>)
    requires OnlyCommits(ws)
  {
    set i | 0 <= i < |ws| :: ws[i].root
  }

  lemma {:induction false} ApplyCommits(d: DiskState, ws: seq<DiskWrite>)
    requires OnlyCommits(ws)
    ensures ApplyWrites(d, ws) == d.(committed := d.committed + CommittedBy(ws))
  {
    if ws != [] {
      var n := |ws| - 1;
      ApplyCommits(d, ws[..n]);
      assert CommittedBy(ws) == CommittedBy(ws[..n]) + {ws[n].root};
    }
  }

  /** The four kinds of disk a crash leaves behind while a block is stored after some trie commits. */
  lemma CutWrites(d: DiskState, commits: seq<DiskWrite>, b: Block, kept: nat)
    requires OnlyCommits(commits)
    ensures var c, n := d.(committed := d.committed + CommittedBy(Cut(commits, kept))), |commits|;
            ApplyWrites(d, Cut(commits + BlockWrites(b), kept))
              == if kept <= n then c
                 else if kept == n + 1 then c.(blocks := d.blocks[b.hash := b])
                 else if kept == n + 2 then
                   c.(blocks := d.blocks[b.hash := b], headers := d.headers[b.hash := b.header])
                 else Store(c, b)
  {
    hide ApplyWrites;
    var n := |commits|;
    ApplyCommits(d, Cut(commits, kept));
    if kept <= n {
      assert Cut(commits + BlockWrites(b), kept) == Cut(commits, kept);
    } else {
      var k := if kept - n < 3 then kept - n else 3;
      assert Cut(commits + BlockWrites(b), kept) == commits + BlockWrites(b)[..k];
      assert BlockWrites(b)[..3] == BlockWrites(b);
      ApplyAppend(d, commits, BlockWrites(b)[..k]);
      ApplyBlockWrites(ApplyWrites(d, commits), b);
    }
  }

  // ----- Recovery -----

  /** A new process, whose trie memory is empty, can open the state trie. */
  predicate Durable(d: DiskState, root: StateRoot) {
    root == EMPTY_ROOT || root in d.committed
  }

  /** NewBlockChain does not panic on this disk. */
  predicate Startable(d: DiskState) {
    d.newest.None? || (d.newest.value in d.blocks && Durable(d, d.blocks[d.newest.value].header.stateRoot))
  }

  /** The block a new process resumes on. */
  function ResumesOn(d: DiskState): (b: Block)
    requires Startable(d)
  {
    if d.newest.None? then Genesis() else d.blocks[d.newest.value]
  }

  /** The newest pointer is unset, or names a stored block that carries the hash it is stored under. */
  predicate Named(d: DiskState) {
    d.newest.None? || (d.newest.value in d.blocks && d.blocks[d.newest.value].hash == d.newest.value)
  }

  /** That block's header is stored too. */
  predicate HeaderStored(d: DiskState) {
    d.newest.Some? ==>
      d.newest.value in d.blocks && d.newest.value in d.headers &&
      d.headers[d.newest.value] == d.blocks[d.newest.value].header
  }

  /**
   * The newest pointer names b after these writes: all of them reached the disk, or b took the place of the newest
   * block, whose hash it carries.
   */
  predicate Takes(d: DiskState, commits: seq<DiskWrite>, b: Block, kept: nat) {
    kept >= |commits| + 3 || (kept > |commits| && d.newest == Some(b.hash))
  }

  /**
   * However many of the writes reach the disk, the newest pointer keeps naming a stored block. While it does not name
   * b a restart resumes on the block before; then it resumes on b, exactly when b's state is empty or committed.
   */
  lemma StoringIsCrashSafe(d: DiskState, commits: seq<DiskWrite>, b: Block, kept: nat)
    requires OnlyCommits(commits) && Named(d)
    ensures var cut := ApplyWrites(d, Cut(commits + BlockWrites(b), kept));
            Named(cut) &&
            if Takes(d, commits, b, kept) then
              (Startable(cut) <==> Durable(d, b.header.stateRoot) || b.header.stateRoot in CommittedBy(commits)) &&
              (Startable(cut) ==> ResumesOn(cut) == b)
            else Startable(d) ==> Startable(cut) && ResumesOn(cut) == ResumesOn(d)
  {
    CutWrites(d, commits, b, kept);
  }

  lemma NewestAfterCut(d: DiskState, commits: seq<DiskWrite>, b: Block, kept: nat)
    requires OnlyCommits(commits) && Named(d)
    ensures var cut := ApplyWrites(d, Cut(commits + BlockWrites(b), kept));
            if Takes(d, commits, b, kept) then
              cut.newest == Some(b.hash) && b.hash in cut.blocks && cut.blocks[b.hash] == b
            else
              cut.newest == d.newest &&
              (d.newest.Some? ==>
                d.newest.value in cut.blocks && cut.blocks[d.newest.value] == d.blocks[d.newest.value])
  {
    CutWrites(d, commits, b, kept);
  }

  /** The header goes missing exactly when b took the newest block's place and nothing else of it was written. */
  lemma HeaderStaysExactly(d: DiskState, commits: seq<DiskWrite>, b: Block, kept: nat)
    requires OnlyCommits(commits) && Named(d) && HeaderStored(d)
    requires d.newest.Some? ==> d.blocks[d.newest.value].header != b.header
    ensures HeaderStored(ApplyWrites(d, Cut(commits + BlockWrites(b), kept))) <==>
              !(d.newest == Some(b.hash) && kept == |commits| + 1)
  {
    CutWrites(d, commits, b, kept);
  }

  // ----- The stored chain -----

  /** Heights are 0 to n, and every parent hash names the block one lower. */
  ghost predicate Linked(chain: seq<Block>) {
    |chain| > 0 && chain[0] == Genesis() &&
    (forall i | 0 < i < |chain| :: Extends(chain[i - 1], chain[i])) &&
    forall i | 0 <= i < |chain| :: chain[i].header.number == i
  }

  ghost predicate HashIn(chain: seq<Block>, h: BlockHash) {
    exists i :: 0 <= i < |chain| && chain[i].hash == h
  }

  /** Every block of the chain is stored with its header, and the newest pointer names the last one. */
  ghost predicate Contains(d: DiskState, chain: seq<Block>) {
    |chain| > 0 && d.newest == Some(chain[|chain| - 1].hash) &&
    (forall i | 0 <= i < |chain| :: chain[i].hash in d.blocks && d.blocks[chain[i].hash] == chain[i]) &&
    forall i | 0 <= i < |chain| :: chain[i].hash in d.headers && d.headers[chain[i].hash] == chain[i].header
  }

  /** The chain can be followed from the newest pointer down to the genesis block. */
  ghost predicate Intact(d: DiskState, chain: seq<Block>) {
    if chain == [] then d.newest.None? else Linked(chain) && Contains(d, chain)
  }

  /** Besides, no other block is stored; before the newest pointer is set, none but the genesis block. */
  ghost predicate Shaped(d: DiskState, chain: seq<Block>) {
    Intact(d, chain) && forall h | h in d.blocks :: h == Genesis().hash || HashIn(chain, h)
  }

  /** Heights 0 to n are stored exactly once each. */
  ghost predicate ChainShape(d: DiskState, chain: seq<Block>) {
    Linked(chain) && Contains(d, chain) && forall h | h in d.blocks :: HashIn(chain, h)
  }

  lemma ShapedIsChainShape(d: DiskState, chain: seq<Block>)
    requires chain != []
    ensures Shaped(d, chain) <==> ChainShape(d, chain)
  {
    assert Linked(chain) ==> chain[0].hash == Genesis().hash;
  }

  /** Following the parent hashes from the same block down meets the same hashes, as far as the blocks are stored. */
  lemma {:induction false} SameHashesDown(d: DiskState, chain: seq<Block>, other: seq<Block>, i: nat, j: nat)
    requires Linked(chain) && Linked(other) && Contains(d, other) && i <= j < |chain| <= |other|
    requires other[|chain| - 1].hash == chain[|chain| - 1].hash
    requires forall k | i < k < |chain| :: chain[k].hash in d.blocks && d.blocks[chain[k].hash] == chain[k]
    ensures other[j].hash == chain[j].hash
    decreases |chain| - j
  {
    if j < |chain| - 1 {
      SameHashesDown(d, chain, other, i, j + 1);
      assert other[j + 1] == chain[j + 1];
      assert Extends(chain[j], chain[j + 1]) && Extends(other[j], other[j + 1]);
    }
  }

  /** A disk holds at most one chain. */
  lemma ChainIsUnique(d: DiskState, chain: seq<Block>, other: seq<Block>)
    requires Intact(d, chain) && Intact(d, other)
    ensures other == chain
  {
    if chain != [] {
      assert other[|other| - 1] == chain[|chain| - 1];
      forall j | 0 <= j < |chain| ensures other[j] == chain[j] {
        SameHashesDown(d, chain, other, 0, j);
      }
    }
  }

  /** b goes on top of the chain. */
  predicate Tops(chain: seq<Block>, b: Block) {
    if chain == [] then b == Genesis() else Extends(chain[|chain| - 1], b)
  }

  lemma LinkedSnoc(chain: seq<Block>, b: Block)
    requires (chain == [] || Linked(chain)) && Tops(chain, b)
    ensures Linked(chain + [b])
  {
  }

  lemma ContainsSnoc(d: DiskState, chain: seq<Block>, b: Block, after: DiskState)
    requires chain == [] || Contains(d, chain)
    requires !HashIn(chain, b.hash)
    requires after.blocks == d.blocks[b.hash := b] && after.headers == d.headers[b.hash := b.header]
    requires after.newest == Some(b.hash)
    ensures Contains(after, chain + [b])
  {
    assert forall i | 0 <= i < |chain| :: HashIn(chain, chain[i].hash);
  }

  lemma KeepsContained(d: DiskState, chain: seq<Block>, b: Block, after: DiskState)
    requires !HashIn(chain, b.hash) && after.newest == d.newest
    requires after.blocks == d.blocks || after.blocks == d.blocks[b.hash := b]
    requires after.headers == d.headers || after.headers == d.headers[b.hash := b.header]
    ensures Contains(d, chain) ==> Contains(after, chain)
  {
    assert forall i | 0 <= i < |chain| :: HashIn(chain, chain[i].hash);
  }

  lemma HashInSnoc(chain: seq<Block>, b: Block, h: BlockHash)
    ensures HashIn(chain + [b], h) <==> HashIn(chain, h) || h == b.hash
  {
    if i :| 0 <= i < |chain| && chain[i].hash == h {
      assert (chain + [b])[i].hash == h;
    }
    assert (chain + [b])[|chain|].hash == b.hash;
  }

  /** Storing an extending block with a new hash keeps the shape, with the block on top. */
  lemma StoringKeepsShape(d: DiskState, chain: seq<Block>, b: Block, after: DiskState)
    requires Shaped(d, chain) && Tops(chain, b) && !HashIn(chain, b.hash)
    requires after.blocks == d.blocks[b.hash := b] && after.headers == d.headers[b.hash := b.header]
    requires after.newest == Some(b.hash)
    ensures ChainShape(after, chain + [b])
  {
    hide Extends, Linked, Contains;
    LinkedSnoc(chain, b);
    ContainsSnoc(d, chain, b, after);
    if chain != [] {
      ShapedIsChainShape(d, chain);
    }
    forall h | h in after.blocks ensures HashIn(chain + [b], h) {
      HashInSnoc(chain, b, h);
    }
  }

  /** A stored block that the chain does not contain rules out every shape. */
  lemma StrayBreaksShape(d: DiskState, chain: seq<Block>, h: BlockHash, other: seq<Block>)
    requires chain != [] && Intact(d, chain) && h in d.blocks && !HashIn(chain, h)
    ensures !Shaped(d, other)
  {
    assert Linked(chain) && HashIn(chain, Genesis().hash) by {
      assert chain[0].hash == Genesis().hash;
    }
    if Intact(d, other) {
      ChainIsUnique(d, chain, other);
    }
  }

  /** Writing a higher block over one of the chain leaves no chain at all, wherever the newest pointer goes. */
  lemma OverwritingBreaksChain(d: DiskState, chain: seq<Block>, b: Block, after: DiskState, other: seq<Block>)
    requires chain != [] && Intact(d, chain) && Tops(chain, b) && HashIn(chain, b.hash)
    requires after.blocks == d.blocks[b.hash := b] && (after.newest == d.newest || after.newest == Some(b.hash))
    ensures !Intact(after, other)
  {
    var i :| 0 <= i < |chain| && chain[i].hash == b.hash;
    if other != [] && Linked(other) && Contains(after, other) {
      assert forall k | 0 <= k < |chain| && k != i :: chain[k].hash != b.hash;
      var last := other[|other| - 1];
      assert last == b || last == chain[|chain| - 1];
      assert last == b ==> |other| == |chain| + 1 && Extends(other[|chain| - 1], b);
      SameHashesDown(after, chain, other, i, i);
    }
  }

  /**
   * Whatever a crash lets through, the chain below the newest pointer stays intact, except exactly when the block is
   * written over one of the chain that carries the same hash.
   */
  lemma CutKeepsIntactExactly(d: DiskState, chain: seq<Block>, commits: seq<DiskWrite>, b: Block, kept: nat)
    requires Intact(d, chain) && Tops(chain, b) && OnlyCommits(commits)
    ensures var cut := ApplyWrites(d, Cut(commits + BlockWrites(b), kept));
            if kept <= |commits| || !HashIn(chain, b.hash) then
              Intact(cut, if kept < |commits| + 3 then chain else chain + [b])
            else forall c :: !Intact(cut, c)
  {
    hide Extends, Linked, HashIn;
    var cut := ApplyWrites(d, Cut(commits + BlockWrites(b), kept));
    CutWrites(d, commits, b, kept);
    LinkedSnoc(chain, b);
    if kept <= |commits| {
      assert Intact(cut, chain);
    } else if HashIn(chain, b.hash) {
      NoHashes(b.hash);
      forall c ensures !Intact(cut, c) {
        OverwritingBreaksChain(d, chain, b, cut, c);
      }
    } else if kept < |commits| + 3 {
      KeepsContained(d, chain, b, cut);
    } else {
      ContainsSnoc(d, chain, b, cut);
    }
  }

  lemma NoHashes(h: BlockHash)
    ensures !HashIn([], h)
  {
  }

  /**
   * The shape survives a crash exactly when the cut does not fall after the first and before the third write of a
   * block, and no block of the chain is written over; the genesis block may be written again.
   */
  lemma CutKeepsShapeExactly(d: DiskState, chain: seq<Block>, commits: seq<DiskWrite>, b: Block, kept: nat)
    requires Shaped(d, chain) && Tops(chain, b) && OnlyCommits(commits)
    ensures var cut := ApplyWrites(d, Cut(commits + BlockWrites(b), kept));
            if chain == [] || kept <= |commits| || (kept >= |commits| + 3 && !HashIn(chain, b.hash)) then
              Shaped(cut, if kept < |commits| + 3 then chain else chain + [b])
            else forall c :: !Shaped(cut, c)
  {
    hide HashIn, Linked, Extends, Contains;
    var n := |commits|;
    var cut := ApplyWrites(d, Cut(commits + BlockWrites(b), kept));
    CutWrites(d, commits, b, kept);
    CutKeepsIntactExactly(d, chain, commits, b, kept);
    NoHashes(b.hash);
    if chain == [] || kept <= n || HashIn(chain, b.hash) {
      if kept >= n + 3 && chain == [] {
        StoringKeepsShape(d, chain, b, cut);
        ShapedIsChainShape(cut, chain + [b]);
      }
    } else if kept >= n + 3 {
      StoringKeepsShape(d, chain, b, cut);
      ShapedIsChainShape(cut, chain + [b]);
    } else {
      forall c ensures !Shaped(cut, c) {
        StrayBreaksShape(cut, chain, b.hash, c);
      }
    }
  }

  /**
   * How the shape is lost: the block of an interrupted AddBlock stays behind, and the restarted node stores another
   * block of the same height.
   */
  lemma CrashCanRepeatHeight(lost: Block, again: Block)
    requires Extends(Genesis(), lost) && Extends(Genesis(), again) && lost.header.time != again.header.time
    requires WellHashed(lost) && WellHashed(again)
    requires lost.header.stateRoot == EMPTY_ROOT
    ensures var crashed := ApplyWrites(Store(BLANK, Genesis()), BlockWrites(lost)[..1]);
            Startable(crashed) && ResumesOn(crashed) == Genesis() &&
            var after := ApplyWrites(crashed, BlockWrites(again));
            lost.hash in after.blocks && again.hash in after.blocks && lost.hash != again.hash &&
            after.blocks[lost.hash].header.number == after.blocks[again.hash].header.number
  {
    var crashed := ApplyWrites(Store(BLANK, Genesis()), BlockWrites(lost)[..1]);
    ApplyBlockWrites(Store(BLANK, Genesis()), lost);
    ApplyBlockWrites(crashed, again);
  }

  // ----- The storage object -----

  /** The files of one node, which outlive its process. The model keeps every write since start in writes. */
  class Disk {
    var blockBucket: map<BlockHash, Block>
    var blockHeaderBucket: map<BlockHash, BlockHeader>
    var newestBlockHash: Option<BlockHash>
    var committedTries: set<StateRoot>
    const start: DiskState
    var writes: seq<DiskWrite>

    function State(): (d: DiskState)
      reads this
    {
      DiskState(blockBucket, blockHeaderBucket, newestBlockHash, committedTries)
    }

    ghost predicate Valid()
      reads this
    {
      State() == ApplyWrites(start, writes)
    }

    /** The files as a process finds them. */
    constructor (found: DiskState)
      ensures Valid() && start == found && State() == found && writes == []
    {
      blockBucket, blockHeaderBucket := found.blocks, found.headers;
      newestBlockHash, committedTries := found.newest, found.committed;
      start, writes := found, [];
    }

    /** triedb.Commit. */
    method Commit(root: StateRoot)
      requires Valid()
      modifies this
      ensures Valid() && writes == old(writes) + [CommitTrie(root)]
      ensures State() == old(State()).(committed := old(committedTries) + {root})
    {
      committedTries := committedTries + {root};
      writes := writes + [CommitTrie(root)];
    }

    method UpdateNewestBlock(newestbhash: BlockHash)
      requires Valid()
      modifies this
      ensures Valid() && writes == old(writes) + [PutNewest(newestbhash)]
    {
      newestBlockHash := Some(newestbhash);
      writes := writes + [PutNewest(newestbhash)];
    }

    method AddBlockHeader(blockhash: BlockHash, bh: BlockHeader)
      requires Valid()
      modifies this
      ensures Valid() && writes == old(writes) + [PutHeader(blockhash, bh)]
    {
      blockHeaderBucket := blockHeaderBucket[blockhash := bh];
      writes := writes + [PutHeader(blockhash, bh)];
    }

    /** Three separate transactions, the newest pointer last. */
    method AddBlock(b: Block)
      requires Valid()
      modifies this
      ensures Valid() && writes == old(writes) + BlockWrites(b)
      ensures State() == Store(old(State()), b)
    {
      ghost var before := writes;
      blockBucket := blockBucket[b.hash := b];
      writes := writes + [PutBlock(b)];
      AddBlockHeader(b.hash, b.header);
      UpdateNewestBlock(b.hash);
      assert writes == before + BlockWrites(b);
    }

    function GetBlock(bhash: BlockHash): (r: Option<Block>)
      reads this
    {
      if bhash in blockBucket then Some(blockBucket[bhash]) else None
    }

    function GetNewestBlockHash(): (r: Option<BlockHash>)
      reads this
    {
      newestBlockHash
    }
  }
}
