/** Node objects driven by actions and events: each does to its object exactly what NodeStates says. */
module Runs {
  import opened Wrappers
  import opened Addresses
  import opened Transactions
  import opened Ledger
  import opened LedgerLaws
  import opened Blocks
  import opened Storage
  import opened ChainStates
  import opened TxPools
  import opened BlockChains
  import opened NodeStates
  import opened RunLaws

  /** The node can take any action. */
  ghost predicate Ready(cfg: ChainConfig, node: BlockChain)
    reads node, node.disk, node.Txpool, node.Txpool.Arrays()
  {
    node.cfg == cfg && node.Valid() && node.Txpool.Valid()
  }

  ghost function StateOf(node: BlockChain): (s: NodeState)
    requires node.Txpool.Layout()
    reads node, node.disk, node.AllStateMapTx.Values, node.Txpool, node.Txpool.TxQueue.arr
  {
    NodeState(node.State(), node.Txpool.Queue())
  }

  // ----- One action on a running node -----

  method SubmitTxs(cfg: ChainConfig, node: BlockChain, txs: seq<Transaction>, now: nat)
    requires Ready(cfg, node)
    modifies node.Txpool`TxQueue, node.Txpool`entered, node.Txpool.TxQueue.arr
    ensures Ready(cfg, node) && Up(StateOf(node)) == Act(cfg, old(Up(StateOf(node))), Submit(txs, now))
    ensures node.disk.writes == old(node.disk.writes)
    ensures node.Txpool.TxQueue.arr == old(node.Txpool.TxQueue.arr) || fresh(node.Txpool.TxQueue.arr)
  {
    hide ApplyWrites, LaidOut, Flatten, ContentsOf;
    node.Txpool.AddTxs2Pool(txs, now);
  }

  method GenerateOn(cfg: ChainConfig, node: BlockChain, now: nat) returns (b: Block)
    requires Ready(cfg, node) && node.CanExecute(Front(node.Txpool.Queue(), cfg.blockSize))
    modifies node, node.disk, node.Txpool`TxQueue, node.Txpool`packed
    ensures Ready(cfg, node) && node.Txpool.TxQueue.arr == old(node.Txpool.TxQueue.arr)
    ensures node.Txpool.Arrays() <= old(node.Txpool.Arrays())
    ensures var s := old(StateOf(node));
            var body := Front(s.queue, cfg.blockSize);
            StateOf(node) == NodeState(Executing(cfg, s.chain, body), s.queue[|body|..]) &&
            b == NextBlock(cfg, s.chain.current, body, now) &&
            node.disk.writes == old(node.disk.writes) + CommitWrites(NewTrie(cfg, s.chain.current, body))
  {
    hide ApplyWrites, LaidOut, Flatten, ContentsOf, Executing, NewTrie, RootAfter, Front, CommitWrites, AllSurvive;
    hide NextBlock, PassesIsValidBlock, Extends, Honest, With;
    ghost var queue := node.Txpool.Queue();
    b := node.GenerateBlock(now);
    RestOf(b.body, node.Txpool.Queue(), queue);
  }

  lemma RestOf(front: seq<Transaction>, rest: seq<Transaction>, queue: seq<Transaction>)
    requires front + rest == queue
    ensures queue[|front|..] == rest
  {
  }

  /** Generating a block and adding it. */
  method MineBlock(cfg: ChainConfig, node: BlockChain, now: nat)
    requires Ready(cfg, node) && node.CanExecute(Front(node.Txpool.Queue(), cfg.blockSize))
    modifies node, node.disk, node.Txpool`TxQueue, node.Txpool`packed
    ensures Ready(cfg, node) && node.Txpool.TxQueue.arr == old(node.Txpool.TxQueue.arr)
    ensures node.Txpool.Arrays() <= old(node.Txpool.Arrays())
    ensures StateOf(node) == Mined(cfg, old(StateOf(node)), now)
    ensures node.disk.writes == old(node.disk.writes) + WritesOf(cfg, old(Up(StateOf(node))), Mine(now))
  {
    hide ApplyWrites, LaidOut, Flatten, ContentsOf, Executing, Added, NewTrie, Front, CommitWrites, BlockWrites;
    hide TrieOf, WritesOf, AllSurvive, NextBlock, Store, RightHeight;
    MinedWrites(cfg, StateOf(node), now);
    var b := GenerateOn(cfg, node, now);
    var _ := AddOn(cfg, node, b);
  }

  method AddOn(cfg: ChainConfig, node: BlockChain, b: Block) returns (printed: Option<StateRoot>)
    requires Ready(cfg, node) && RightHeight(node.CurrentBlock, b) && (Foreign(cfg, b) ==> node.CanExecute(b.body))
    modifies node, node.disk
    ensures Ready(cfg, node) && StateOf(node) == old(StateOf(node)).(chain := Added(cfg, old(node.State()), b))
    ensures node.disk.writes
         == old(node.disk.writes) + CommitWrites(TrieOf(cfg, old(node.CurrentBlock), b)) + BlockWrites(b)
    ensures printed == if Foreign(cfg, b) then Some(RootAfter(cfg, old(node.CurrentBlock), b.body)) else None
  {
    hide ApplyWrites, LaidOut, Flatten, ContentsOf, Added, TrieOf, CommitWrites, BlockWrites, RootAfter, AllSurvive;
    printed := node.AddBlock(b);
    assert node.Txpool.Queue() == old(node.Txpool.Queue()) && node.Txpool.Batches() == old(node.Txpool.Batches());
  }

  /** A block of a peer is added when IsValidBlock reports no error; printed is the root AddBlock executes it to. */
  method ReceiveBlock(cfg: ChainConfig, node: BlockChain, b: Block) returns (printed: Option<StateRoot>)
    requires Ready(cfg, node)
    requires Accepts(node.State(), b) && Foreign(cfg, b) ==> node.CanExecute(b.body)
    modifies node, node.disk
    ensures Ready(cfg, node) && Up(StateOf(node)) == Act(cfg, old(Up(StateOf(node))), Receive(b))
    ensures node.disk.writes == old(node.disk.writes) + WritesOf(cfg, old(Up(StateOf(node))), Receive(b))
    ensures printed == if old(Accepts(node.State(), b)) && Foreign(cfg, b)
                       then Some(RootAfter(cfg, old(node.CurrentBlock), b.body)) else None
  {
    hide ApplyWrites, LaidOut, Flatten, ContentsOf, Executing, Added, NewTrie, RootAfter;
    hide CommitWrites, BlockWrites, TrieOf, TxTree;
    printed := None;
    if node.IsValidBlock(b).None? {
      printed := node.AddBlock(b);
    }
    assert node.Txpool.Queue() == old(node.Txpool.Queue()) && node.Txpool.Batches() == old(node.Txpool.Batches());
  }

  method RemapAccount(cfg: ChainConfig, node: BlockChain, key: Address, shard: nat)
    requires Ready(cfg, node)
    modifies node`PartitionMap
    ensures Ready(cfg, node) && Up(StateOf(node)) == Act(cfg, old(Up(StateOf(node))), Remap(key, shard))
  {
    hide ApplyWrites;
    node.Update_PartitionMap(key, shard);
    assert node.Txpool.Queue() == old(node.Txpool.Queue()) && node.Txpool.Batches() == old(node.Txpool.Batches());
  }

  // ----- Processes that end and start -----

  /** A node object, or only the disk a process left. */
  ghost function MachineOf(node: BlockChain?, left: DiskState): (m: Machine)
    requires node != null ==> node.Txpool.Layout()
    reads if node == null then {}
          else {node, node.disk, node.Txpool, node.Txpool.TxQueue.arr} + node.AllStateMapTx.Values
  {
    if node == null then Off(left) else Up(StateOf(node))
  }

  method StartNode(cfg: ChainConfig, found: DiskState) returns (node: BlockChain?)
    ensures node != null ==>
              fresh(node) && fresh(node.disk) && fresh(node.Txpool) && fresh(node.Txpool.TxQueue.arr) &&
              Ready(cfg, node) && node.disk.writes == WritesOf(cfg, Off(found), Start)
    ensures MachineOf(node, found) == Act(cfg, Off(found), Start)
  {
    hide Started;
    node := null;
    if Startable(found) {
      var disk := new Disk(found);
      node := new BlockChain(cfg, disk);
    }
  }

  /** One action, on a running node or on what a process left. A node that panics is gone; its disk remains. */
  method Perform(cfg: ChainConfig, node: BlockChain?, left: DiskState, a: Action)
    returns (next: BlockChain?, rest: DiskState)
    requires node != null ==> Ready(cfg, node)
    modifies if node == null then {} else {node, node.disk, node.Txpool, node.Txpool.TxQueue.arr}
    ensures next != null ==> Ready(cfg, next)
    ensures MachineOf(next, rest) == Act(cfg, old(MachineOf(node, left)), a)
    ensures var ws := WritesOf(cfg, old(MachineOf(node, left)), a);
            if next == null then ws == []
            else next.disk.writes == (if node == null then [] else old(node.disk.writes)) + ws
    ensures next != null ==> next == node || (fresh(next) && fresh(next.disk) && fresh(next.Txpool))
    ensures next != null ==>
              fresh(next.Txpool.TxQueue.arr) ||
              (next == node && next.Txpool.TxQueue.arr == old(node.Txpool.TxQueue.arr))
  {
    hide ApplyWrites, LaidOut, Flatten, ContentsOf, Mined, Added, Started, BlockWrites;
    next, rest := node, left;
    if node == null {
      if a.Start? {
        next := StartNode(cfg, left);
      }
      return;
    }
    match a {
      case Start =>
      case Submit(txs, now) =>
        SubmitTxs(cfg, node, txs, now);
      case Mine(now) =>
        if node.CanExecute(Front(node.Txpool.Queue(), cfg.blockSize)) {
          MineBlock(cfg, node, now);
        } else {
          next, rest := null, node.disk.State();
        }
      case Receive(b) =>
        if node.IsValidBlock(b).None? && RightHeight(node.CurrentBlock, b) && Foreign(cfg, b) &&
           !node.CanExecute(b.body) {
          next, rest := null, node.disk.State();
        } else {
          var _ := ReceiveBlock(cfg, node, b);
        }
      case Remap(key, shard) =>
        RemapAccount(cfg, node, key, shard);
    }
  }

  /** The process stops in the action, when the first kept of the action's writes have reached the disk. */
  method CrashDuring(cfg: ChainConfig, node: BlockChain?, left: DiskState, a: Action, kept: nat)
    returns (found: DiskState)
    requires node != null ==> Ready(cfg, node)
    modifies if node == null then {} else {node, node.disk, node.Txpool, node.Txpool.TxQueue.arr}
    ensures Off(found) == Next(cfg, old(MachineOf(node, left)), CrashIn(a, kept))
  {
    hide Act, ApplyWrites, WritesOf;
    ghost var m := MachineOf(node, left);
    var before, already := left, 0;
    if node != null {
      before, already := node.disk.State(), |node.disk.writes|;
    }
    var next, _ := Perform(cfg, node, left, a);
    var made := if next == null then [] else next.disk.writes[already..];
    assert made == WritesOf(cfg, m, a);
    found := ApplyWrites(before, Cut(made, kept));
  }

  /**
   * Node objects on a disk that was blank at first, driven by any events: they end exactly where Run says, so what
   * RunLaws proves of every run holds of them.
   */
  method RunNode(cfg: ChainConfig, events: seq<Event>) returns (node: BlockChain?, left: DiskState)
    ensures node != null ==> Ready(cfg, node)
    ensures MachineOf(node, left) == Run(cfg, events)
  {
    hide Next, Run, ApplyWrites;
    EmptyRun(cfg);
    node, left := null, BLANK;
    for i := 0 to |events|
      invariant node != null ==>
                  Ready(cfg, node) && fresh(node) && fresh(node.disk) && fresh(node.Txpool) &&
                  fresh(node.Txpool.TxQueue.arr)
      invariant MachineOf(node, left) == Run(cfg, events[..i])
    {
      RunNext(cfg, events, i);
      match events[i] {
        case Do(a) =>
          DoIsAct(cfg, MachineOf(node, left), a);
          node, left := Perform(cfg, node, left, a);
        case CrashIn(a, kept) =>
          left := CrashDuring(cfg, node, left, a, kept);
          node := null;
      }
    }
    assert events[..|events|] == events;
  }

  lemma DoIsAct(cfg: ChainConfig, m: Machine, a: Action)
    ensures Next(cfg, m, Do(a)) == Act(cfg, m, a)
  {
  }

  /**
   * Generating and adding blocks until the pool is empty: the trie and the number of blocks are those of Drain, so
   * by BlockSizeDoesNotMatter the balances do not depend on the block size.
   */
  method MineUntilEmpty(cfg: ChainConfig, node: BlockChain, now: nat) returns (blocks: nat)
    requires Ready(cfg, node) && cfg.blockSize > 0 && node.State().Opens(node.CurrentBlock.header.stateRoot)
    requires AllSurvive(cfg, node.CurrentBlock.header.stateRoot.content, node.Txpool.Queue())
    modifies node, node.disk, node.Txpool`TxQueue, node.Txpool`packed
    ensures Ready(cfg, node) && node.Txpool.Queue() == []
    ensures var d := Drain(cfg, old(node.CurrentBlock.header.stateRoot.content), old(node.Txpool.Queue()));
            node.CurrentBlock.header.stateRoot == StateRoot(d.st) && blocks == d.blocks
  {
    hide ApplyTxs, ApplyWrites, NewTrie, AllSurvive, Mined;
    blocks := 0;
    ghost var d := Drain(cfg, node.CurrentBlock.header.stateRoot.content, node.Txpool.Queue());
    while node.Txpool.GetTxQueueLen() > 0
      invariant Ready(cfg, node) && node.State().Opens(node.CurrentBlock.header.stateRoot)
      invariant AllSurvive(cfg, node.CurrentBlock.header.stateRoot.content, node.Txpool.Queue())
      invariant var rest := Drain(cfg, node.CurrentBlock.header.stateRoot.content, node.Txpool.Queue());
                rest.st == d.st && blocks + rest.blocks == d.blocks
      decreases node.Txpool.TxQueue.len
    {
      MinedDrains(cfg, StateOf(node), now);
      MineBlock(cfg, node, now);
      blocks := blocks + 1;
    }
  }

  /** A mined block takes the next part of the queue, and its state can be opened. */
  lemma MinedDrains(cfg: ChainConfig, s: NodeState, now: nat)
    requires s.queue != [] && cfg.blockSize > 0 && s.chain.Opens(s.chain.current.header.stateRoot)
    requires AllSurvive(cfg, s.chain.current.header.stateRoot.content, s.queue)
    ensures s.chain.CanExecute(cfg, Front(s.queue, cfg.blockSize))
    ensures var r := Mined(cfg, s, now);
            var d := Drain(cfg, s.chain.current.header.stateRoot.content, s.queue);
            |r.queue| < |s.queue| && AllSurvive(cfg, r.chain.current.header.stateRoot.content, r.queue) &&
            r.chain.Opens(r.chain.current.header.stateRoot) &&
            var rest := Drain(cfg, r.chain.current.header.stateRoot.content, r.queue);
            d.st == rest.st && d.blocks == rest.blocks + 1
  {
    hide ApplyTxs, NewTrie, AllSurvive;
    var body := Front(s.queue, cfg.blockSize);
    assert body == s.queue[..|body|] && body + s.queue[|body|..] == s.queue;
    SplitSurvives(cfg, s.chain.current.header.stateRoot.content, body, s.queue[|body|..]);
    RootIsNewOrOld(cfg, s.chain.current, body);
  }
}
