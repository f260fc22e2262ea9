/** The state of a BlockChain object and its disk as a value, and what chain/blockchain.go does to it. */
module ChainStates {
  import opened Wrappers
  import opened Addresses
  import opened Transactions
  import opened Ledger
  import opened LedgerLaws
  import opened Blocks
  import opened Storage
  import opened AccountLoading

  /** memory holds the roots whose nodes are in the memory of the trie database; a crash loses them. */
  datatype ChainState = ChainState(
    disk: DiskState, memory: set<StateRoot>, current: Block, partitionMap: map<Address, nat>, virtuals: Trie,
    flag: bool)
  {
    /** trie.New succeeds. */
    predicate Opens(root: StateRoot) {
      root == EMPTY_ROOT || root in memory || root in disk.committed
    }

    function Ledger(): (e: Exec) {
      Exec(current.header.stateRoot.content, 0, virtuals)
    }

    /** GetUpdateStatusTrie on these transactions does not panic. */
    predicate CanExecute(cfg: ChainConfig, txs: seq<Transaction>) {
      txs == [] || (Opens(current.header.stateRoot) && AllSurvive(cfg, current.header.stateRoot.content, txs))
    }
  }

  /** The trie a batch on top of parent commits: none when every transaction is rejected. */
  function NewTrie(cfg: ChainConfig, parent: Block, txs: seq<Transaction>): (root: Option<StateRoot>)
  {
    var st := parent.header.stateRoot.content;
    if Accepted(cfg, Exec(st, 0, map[]), txs) == [] then None else Some(StateRoot(Execute(cfg, st, txs)))
  }

  function With(roots: set<StateRoot>, root: Option<StateRoot>): (r: set<StateRoot>) {
    if root.None? then roots else roots + {root.value}
  }

  function CommitWrites(root: Option<StateRoot>): (ws: seq<DiskWrite>)
    ensures OnlyCommits(ws)
  {
    if root.None? then [] else [CommitTrie(root.value)]
  }

  /** GetUpdateStatusTrie. */
  function Executing(cfg: ChainConfig, s: ChainState, txs: seq<Transaction>): (r: ChainState)
  {
    var root := NewTrie(cfg, s.current, txs);
    s.(disk := s.disk.(committed := With(s.disk.committed, root)), memory := With(s.memory, root),
       partitionMap := cfg.mapInfo, virtuals := ApplyTxs(cfg, s.Ledger(), txs).virtuals, flag := s.flag || root.Some?)
  }

  /** The root GetUpdateStatusTrie returns. */
  function RootAfter(cfg: ChainConfig, current: Block, txs: seq<Transaction>): (root: StateRoot)
  {
    StateRoot(Execute(cfg, current.header.stateRoot.content, txs))
  }

  /** The block GenerateBlock makes of the packed transactions. */
  function NextBlock(cfg: ChainConfig, current: Block, txs: seq<Transaction>, now: nat): (b: Block)
  {
    Child(current, RootAfter(cfg, current, txs), txs, now, |txs|)
  }

  /** A node executes the blocks of others. */
  predicate Foreign(cfg: ChainConfig, b: Block) {
    b.header.miner != cfg.nodeID
  }

  predicate RightHeight(current: Block, b: Block) {
    b.header.number == current.header.number + 1
  }

  /** AddBlock on a block of the right height, whatever its state root. */
  function Added(cfg: ChainConfig, s: ChainState, b: Block): (r: ChainState)
  {
    var t := if Foreign(cfg, b) then Executing(cfg, s, b.body) else s;
    t.(disk := Store(t.disk, b), current := b)
  }

  /** The trie AddBlock commits before it stores the block. */
  function TrieOf(cfg: ChainConfig, current: Block, b: Block): (root: Option<StateRoot>)
  {
    if Foreign(cfg, b) then NewTrie(cfg, current, b.body) else None
  }

  /** NewBlockChain. */
  function Started(d: DiskState): (s: ChainState)
    requires Startable(d)
  {
    ChainState(if d.newest.None? then Store(d, Genesis()) else d, {}, ResumesOn(d), map[], map[], false)
  }

  /** AddAccounts and AddAccount build the trie st, commit the old root, and store a block on the new one. */
  function Loaded(s: ChainState, ac: seq<Address>, st: Trie): (r: ChainState) {
    var root := s.current.header.stateRoot;
    var b := Child(s.current, StateRoot(st), [], 0, 0);
    if ac == [] then s.(disk := Store(s.disk, b), current := b)
    else
      var committed := s.disk.committed + if root in s.memory then {root} else {};
      s.(disk := Store(s.disk.(committed := committed), b), memory := s.memory + {StateRoot(st)}, current := b)
  }

  /**
   * After AddBlock the new state can be opened exactly when its root is empty, was in memory or committed before, or
   * is what executing the block gave; a new process needs the same without the memory.
   */
  lemma AddedOpensExactly(cfg: ChainConfig, s: ChainState, b: Block)
    ensures var root := b.header.stateRoot;
            (Added(cfg, s, b).Opens(root) <==> s.Opens(root) || TrieOf(cfg, s.current, b) == Some(root)) &&
            (Startable(Added(cfg, s, b).disk) <==> Durable(s.disk, root) || TrieOf(cfg, s.current, b) == Some(root))
  {
    hide ApplyTxs, Accepted;
  }

  /**
   * After accounts are loaded a new process can start exactly when the state it loads was empty or committed before:
   * what the loading itself commits is the old root.
   */
  lemma LoadedRestartsExactly(s: ChainState, ac: seq<Address>, st: Trie)
    requires if ac == [] then st == s.current.header.stateRoot.content else st != s.current.header.stateRoot.content
    ensures Startable(Loaded(s, ac, st).disk) <==> Durable(s.disk, StateRoot(st))
  {
  }

  /**
   * A batch of which nothing is accepted leaves everything but the partition map; any other commits the new trie and
   * sets the flag.
   */
  lemma ExecutingCommitsExactly(cfg: ChainConfig, s: ChainState, txs: seq<Transaction>)
    ensures var r, root := Executing(cfg, s, txs), RootAfter(cfg, s.current, txs);
            if Accepted(cfg, Exec(s.current.header.stateRoot.content, 0, map[]), txs) == [] then
              r == s.(partitionMap := cfg.mapInfo) && root == s.current.header.stateRoot
            else
              r == s.(partitionMap := cfg.mapInfo, disk := s.disk.(committed := s.disk.committed + {root}),
                      memory := s.memory + {root}, virtuals := r.virtuals, flag := true)
  {
    var e := Exec(s.current.header.stateRoot.content, 0, map[]);
    hide ApplyTx;
    WriteCounter(cfg, e, txs);
    WriteCounter(cfg, s.Ledger(), txs);
    ReplicasExecuteAlike(cfg, cfg, s.Ledger(), e, txs);
  }

  /** A node's own block is stored without being executed; a block of another miner is executed first. */
  lemma AddedExecutesExactly(cfg: ChainConfig, s: ChainState, b: Block)
    ensures var t := if b.header.miner == cfg.nodeID then s else Executing(cfg, s, b.body);
            Added(cfg, s, b) == t.(disk := Added(cfg, s, b).disk, current := b) &&
            Added(cfg, s, b).disk == t.disk.(blocks := t.disk.blocks[b.hash := b],
              headers := t.disk.headers[b.hash := b.header], newest := Some(b.hash))
  {
    hide Executing;
  }

  /**
   * Loading puts a block without transactions, with the zero time, on top of the current one. The new state is in
   * memory; the old one becomes durable if it was there.
   */
  lemma LoadedOnTop(s: ChainState, ac: seq<Address>, st: Trie)
    ensures var b := Loaded(s, ac, st).current;
            b.header
              == BlockHeader(s.current.hash, StateRoot(st), TxRoot(map[]), s.current.header.number + 1, 0, 0, 0) &&
            b.body == [] && b.hash == HashOf(b.header) && Loaded(s, ac, st).disk.newest == Some(b.hash) &&
            Loaded(s, ac, st).disk.blocks == s.disk.blocks[b.hash := b] &&
            (ac != [] ==>
              var root := s.current.header.stateRoot;
              Loaded(s, ac, st).memory == s.memory + {StateRoot(st)} &&
              (Durable(Loaded(s, ac, st).disk, root) <==> s.Opens(root)))
  {
  }
}
