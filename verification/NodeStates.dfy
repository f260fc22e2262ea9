/** A node as a state machine over everything that can happen to it, crashes included, and what every run keeps. */
module NodeStates {
  import opened Wrappers
  import opened Addresses
  import opened Transactions
  import opened Ledger
  import opened LedgerLaws
  import opened Blocks
  import opened Storage
  import opened ChainStates
  import opened TxPools

  /** A running node: its chain and disk, and the queue of its pool. */
  datatype NodeState = NodeState(chain: ChainState, queue: seq<Transaction>)

  /** A process is running, or only its disk is left. */
  datatype Machine = Off(left: DiskState) | Up(node: NodeState) {
    function Disk(): (d: DiskState) {
      if Up? then node.chain.disk else left
    }
  }

  /** Receive tests the block of a peer with IsValidBlock and hands it to AddBlock. */
  datatype Action =
    | Start
    | Submit(txs: seq<Transaction>, now: nat)
    | Mine(now: nat)
    | Receive(block: Block)
    | Remap(key: Address, shard: nat)

  /** CrashIn stops the process in the action, when the first kept of the action's writes have reached the disk. */
  datatype Event = Do(action: Action) | CrashIn(action: Action, kept: nat)

  // ----- One action -----

  predicate Accepts(s: ChainState, b: Block) {
    PassesIsValidBlock(s.current, b) && RightHeight(s.current, b)
  }

  /** AddBlock does not panic. */
  predicate CanAdd(cfg: ChainConfig, s: ChainState, b: Block) {
    Foreign(cfg, b) ==> s.CanExecute(cfg, b.body)
  }

  /** GenerateBlock followed by AddBlock. */
  function Mined(cfg: ChainConfig, s: NodeState, now: nat): (r: NodeState) {
    var body := Front(s.queue, cfg.blockSize);
    var b := NextBlock(cfg, s.chain.current, body, now);
    NodeState(Added(cfg, Executing(cfg, s.chain, body), b), s.queue[|body|..])
  }

  /** A panic ends the process. */
  function Act(cfg: ChainConfig, m: Machine, a: Action): (r: Machine) {
    if m.Off? then
      if a.Start? && Startable(m.left) then Up(NodeState(Started(m.left), [])) else m
    else
      var s := m.node;
      match a
      case Start => m
      case Submit(txs, now) => Up(s.(queue := s.queue + StampAll(txs, now)))
      case Mine(now) =>
        if s.chain.CanExecute(cfg, Front(s.queue, cfg.blockSize)) then Up(Mined(cfg, s, now)) else Off(m.Disk())
      case Receive(b) =>
        if !Accepts(s.chain, b) then m
        else if CanAdd(cfg, s.chain, b) then Up(s.(chain := Added(cfg, s.chain, b))) else Off(m.Disk())
      case Remap(key, shard) => Up(s.(chain := s.chain.(partitionMap := s.chain.partitionMap[key := shard])))
  }

  /** The block an action stores, and the trie commits before it. */
  datatype Storing = Storing(commits: seq<DiskWrite>, block: Block)

  function StoringOf(cfg: ChainConfig, m: Machine, a: Action): (r: Option<Storing>)
    ensures r.Some? ==> OnlyCommits(r.value.commits)
  {
    if m.Off? then
      if a.Start? && m.left.newest.None? then Some(Storing([], Genesis())) else None
    else
      var s, body := m.node.chain, Front(m.node.queue, cfg.blockSize);
      if a.Mine? && s.CanExecute(cfg, body) then
        var b, first := NextBlock(cfg, s.current, body, a.now), CommitWrites(NewTrie(cfg, s.current, body));
        Some(Storing(first + CommitWrites(TrieOf(cfg, s.current, b)), b))
      else if a.Receive? && Accepts(s, a.block) && CanAdd(cfg, s, a.block) then
        Some(Storing(CommitWrites(TrieOf(cfg, s.current, a.block)), a.block))
      else None
  }

  /** The writes of an action, in order. */
  function WritesOf(cfg: ChainConfig, m: Machine, a: Action): (ws: seq<DiskWrite>) {
    var storing := StoringOf(cfg, m, a);
    if storing.None? then [] else storing.value.commits + BlockWrites(storing.value.block)
  }

  function Next(cfg: ChainConfig, m: Machine, e: Event): (r: Machine) {
    match e
    case Do(a) => Act(cfg, m, a)
    case CrashIn(a, kept) => Off(ApplyWrites(m.Disk(), Cut(WritesOf(cfg, m, a), kept)))
  }

  /** Everything that happened to a machine that began as a blank disk. */
  function Run(cfg: ChainConfig, events: seq<Event>): (m: Machine) {
    if events == [] then Off(BLANK)
    else
      var n := |events| - 1;
      Next(cfg, Run(cfg, events[..n]), events[n])
  }

  // ----- The disk and the newest block -----

  /**
   * The newest pointer names a block stored under the hash it carries; a running node stands on that block, and every
   * root in its memory is committed.
   */
  predicate Sound(m: Machine) {
    Named(m.Disk()) &&
    (m.Up? ==>
      var s := m.node.chain;
      s.disk.newest == Some(s.current.hash) && s.disk.blocks[s.current.hash] == s.current &&
      s.memory <= s.disk.committed)
  }

  lemma NoWrites(d: DiskState)
    ensures ApplyWrites(d, []) == d
  {
  }

  lemma CommitOne(d: DiskState, root: Option<StateRoot>)
    ensures ApplyWrites(d, CommitWrites(root)) == d.(committed := With(d.committed, root))
  {
    if root.Some? {
      assert CommitWrites(root) == [] + [CommitTrie(root.value)];
      ApplySnoc(d, [], CommitTrie(root.value));
    }
  }

  lemma AddingWrites(cfg: ChainConfig, s: ChainState, b: Block)
    ensures Added(cfg, s, b).disk
         == ApplyWrites(s.disk, CommitWrites(TrieOf(cfg, s.current, b)) + BlockWrites(b))
  {
    hide NewTrie, ApplyTxs, ApplyWrites, CommitWrites, BlockWrites;
    var root := TrieOf(cfg, s.current, b);
    CommitOne(s.disk, root);
    ApplyAppend(s.disk, CommitWrites(root), BlockWrites(b));
    ApplyBlockWrites(ApplyWrites(s.disk, CommitWrites(root)), b);
  }

  lemma MinedWrites(cfg: ChainConfig, s: NodeState, now: nat)
    requires s.chain.CanExecute(cfg, Front(s.queue, cfg.blockSize))
    ensures var body := Front(s.queue, cfg.blockSize);
            var b := NextBlock(cfg, s.chain.current, body, now);
            RightHeight(s.chain.current, b) && b.body == body && Executing(cfg, s.chain, body).CanExecute(cfg, body) &&
            Executing(cfg, s.chain, body).current == s.chain.current &&
            WritesOf(cfg, Up(s), Mine(now))
              == CommitWrites(NewTrie(cfg, s.chain.current, body)) +
                 CommitWrites(TrieOf(cfg, s.chain.current, b)) + BlockWrites(b)
  {
    hide NewTrie, RootAfter, ApplyTxs;
  }

  /** What an action makes of the disk is what its writes make of it. */
  lemma ActionWrites(cfg: ChainConfig, m: Machine, a: Action)
    ensures Act(cfg, m, a).Disk() == ApplyWrites(m.Disk(), WritesOf(cfg, m, a))
  {
    hide NewTrie, RootAfter, Front, Added, CommitWrites, BlockWrites, TrieOf, ApplyWrites;
    var ws := WritesOf(cfg, m, a);
    if StoringOf(cfg, m, a).None? {
      NoWrites(m.Disk());
    } else if m.Off? {
      assert ws == BlockWrites(Genesis());
      ApplyBlockWrites(m.left, Genesis());
    } else if a.Receive? {
      AddingWrites(cfg, m.node.chain, a.block);
    } else {
      var s, body := m.node.chain, Front(m.node.queue, cfg.blockSize);
      var b, root := NextBlock(cfg, s.current, body, a.now), NewTrie(cfg, s.current, body);
      var later := CommitWrites(TrieOf(cfg, s.current, b)) + BlockWrites(b);
      CommitOne(s.disk, root);
      AddingWrites(cfg, Executing(cfg, s, body), b);
      ApplyAppend(s.disk, CommitWrites(root), later);
      assert ws == CommitWrites(root) + later;
    }
  }

  /** The stored block goes on top of the current one, and the node then stands on it. */
  lemma StoredOnTop(cfg: ChainConfig, m: Machine, a: Action)
    requires Sound(m) && StoringOf(cfg, m, a).Some?
    ensures var b := StoringOf(cfg, m, a).value.block;
            (if m.Up? then Extends(m.node.chain.current, b) else m.left.newest.None? && b == Genesis()) &&
            Act(cfg, m, a).Up? && Act(cfg, m, a).node.chain.current == b
  {
    hide NewTrie, RootAfter, ApplyTxs;
  }

  lemma MemoryStaysCommitted(cfg: ChainConfig, s: ChainState, b: Block, txs: seq<Transaction>)
    requires s.memory <= s.disk.committed
    ensures var t := Executing(cfg, s, txs); t.memory <= t.disk.committed && t.current == s.current
    ensures var t := Added(cfg, s, b); t.memory <= t.disk.committed && t.current == b
  {
    hide NewTrie, ApplyTxs;
  }

  lemma ActionKeepsSound(cfg: ChainConfig, m: Machine, a: Action)
    requires Sound(m)
    ensures Sound(Act(cfg, m, a))
  {
    hide NewTrie, RootAfter, ApplyTxs, Executing;
    if StoringOf(cfg, m, a).Some? {
      StoredOnTop(cfg, m, a);
      if m.Up? {
        var s := m.node.chain;
        if a.Mine? {
          var body := Front(m.node.queue, cfg.blockSize);
          var b := NextBlock(cfg, s.current, body, a.now);
          MemoryStaysCommitted(cfg, s, b, body);
          MemoryStaysCommitted(cfg, Executing(cfg, s, body), b, []);
        } else {
          MemoryStaysCommitted(cfg, s, a.block, []);
        }
      }
    }
  }

  lemma StaysSound(cfg: ChainConfig, m: Machine, e: Event)
    requires Sound(m)
    ensures Sound(Next(cfg, m, e))
  {
    hide ApplyWrites, Named, CommittedBy, BlockWrites, StoringOf, Act;
    var storing := StoringOf(cfg, m, e.action);
    if e.Do? {
      ActionKeepsSound(cfg, m, e.action);
    } else if storing.Some? {
      StoredOnTop(cfg, m, e.action);
      StoringIsCrashSafe(m.Disk(), storing.value.commits, storing.value.block, e.kept);
    } else {
      NoWrites(m.Disk());
    }
  }

  // ----- Which runs can always be started again -----

  /** A new process could open the block's state: it is empty, committed, or what executing the block commits. */
  predicate Known(cfg: ChainConfig, s: ChainState, b: Block) {
    Durable(s.disk, b.header.stateRoot) || TrieOf(cfg, s.current, b) == Some(b.header.stateRoot)
  }

  /** The event stores a block so far that the newest pointer names it. */
  predicate Stores(cfg: ChainConfig, m: Machine, e: Event) {
    var storing := StoringOf(cfg, m, e.action);
    storing.Some? && (e.Do? || Takes(m.Disk(), storing.value.commits, storing.value.block, e.kept))
  }

  /** A peer's block with a state root the node does not know is accepted and stored. */
  predicate StoresUnknown(cfg: ChainConfig, m: Machine, e: Event) {
    Stores(cfg, m, e) && e.action.Receive? && !Known(cfg, m.node.chain, e.action.block)
  }

  /** The root of a generated block is the old one or the one just committed. */
  lemma RootIsNewOrOld(cfg: ChainConfig, current: Block, txs: seq<Transaction>)
    ensures RootAfter(cfg, current, txs)
         == match NewTrie(cfg, current, txs) case None => current.header.stateRoot case Some(root) => root
  {
    hide ApplyTx;
    WriteCounter(cfg, Exec(current.header.stateRoot.content, 0, map[]), txs);
  }

  /** The addresses of all transactions the action executes parse, as far as they are looked at. */
  predicate Parses(cfg: ChainConfig, s: NodeState, a: Action) {
    var st := s.chain.current.header.stateRoot.content;
    (a.Mine? ==> AllSurvive(cfg, st, Front(s.queue, cfg.blockSize))) &&
    (a.Receive? && Accepts(s.chain, a.block) && Foreign(cfg, a.block) ==> AllSurvive(cfg, st, a.block.body))
  }

  /** A running node whose disk can be started panics exactly on addresses that do not parse. */
  lemma PanicsExactly(cfg: ChainConfig, m: Machine, a: Action)
    requires Sound(m) && m.Up? && Startable(m.Disk())
    ensures Act(cfg, m, a).Up? <==> Parses(cfg, m.node, a)
  {
    hide Added, Mined;
  }

  /** The state of the stored block is durable exactly when it is known. */
  lemma StoredIsDurableExactly(cfg: ChainConfig, m: Machine, a: Action)
    requires Sound(m) && Startable(m.Disk()) && StoringOf(cfg, m, a).Some?
    ensures var s := StoringOf(cfg, m, a).value;
            Durable(m.Disk(), s.block.header.stateRoot) || s.block.header.stateRoot in CommittedBy(s.commits) <==>
              a.Receive? ==> Known(cfg, m.node.chain, a.block)
  {
    hide NewTrie, RootAfter, ApplyTxs;
    if m.Up? {
      var s := m.node.chain;
      if a.Mine? {
        var body := Front(m.node.queue, cfg.blockSize);
        RootIsNewOrOld(cfg, s.current, body);
        if NewTrie(cfg, s.current, body).Some? {
          assert StoringOf(cfg, m, a).value.commits[0].root == RootAfter(cfg, s.current, body);
        }
      } else if TrieOf(cfg, s.current, a.block).Some? {
        assert StoringOf(cfg, m, a).value.commits[0].root == TrieOf(cfg, s.current, a.block).value;
      }
    }
  }

  /**
   * From a disk that can be started, every event, a crash between any two writes included, leaves a disk that can be
   * started, except exactly the storing of a peer's block with an unknown state root.
   */
  lemma RestartableExactly(cfg: ChainConfig, m: Machine, e: Event)
    requires Sound(m) && Startable(m.Disk())
    ensures Startable(Next(cfg, m, e).Disk()) <==> !StoresUnknown(cfg, m, e)
  {
    hide ApplyWrites, CommittedBy, Act, StoringOf, Known, Named;
    var a, storing := e.action, StoringOf(cfg, m, e.action);
    ActionWrites(cfg, m, a);
    if storing.Some? {
      var kept := if e.Do? then |WritesOf(cfg, m, a)| else e.kept;
      StoredOnTop(cfg, m, a);
      StoredIsDurableExactly(cfg, m, a);
      StoringIsCrashSafe(m.Disk(), storing.value.commits, storing.value.block, kept);
    } else {
      NoWrites(m.Disk());
    }
  }

  /**
   * Where a crash in an action resumes: on the block that was current before, or, once the newest pointer names the
   * block being stored, on that block, on which the node would have gone on.
   */
  lemma CrashResumes(cfg: ChainConfig, m: Machine, a: Action, kept: nat)
    requires Sound(m) && Startable(m.Disk()) && !StoresUnknown(cfg, m, CrashIn(a, kept))
    ensures var found, stored := Next(cfg, m, CrashIn(a, kept)).Disk(), Stores(cfg, m, CrashIn(a, kept));
            Startable(found) && Act(cfg, Off(found), Start) == Up(NodeState(Started(found), [])) &&
            Started(found).current
              == (if stored then StoringOf(cfg, m, a).value.block else ResumesOn(m.Disk())) &&
            (m.Up? ==> ResumesOn(m.Disk()) == m.node.chain.current) &&
            (stored ==> Act(cfg, m, a).Up? && Act(cfg, m, a).node.chain.current == Started(found).current)
  {
    hide ApplyWrites, CommittedBy, StoringOf, Known, Named, Executing, Added, Mined;
    var storing := StoringOf(cfg, m, a);
    RestartableExactly(cfg, m, CrashIn(a, kept));
    if storing.Some? {
      StoredOnTop(cfg, m, a);
      StoringIsCrashSafe(m.Disk(), storing.value.commits, storing.value.block, kept);
    } else {
      NoWrites(m.Disk());
    }
  }

  /** The event leaves the newest block without its header: one write of a block that carries the newest hash. */
  predicate LosesHeader(cfg: ChainConfig, m: Machine, e: Event) {
    var storing := StoringOf(cfg, m, e.action);
    e.CrashIn? && storing.Some? && m.Disk().newest == Some(storing.value.block.hash) &&
    e.kept == |storing.value.commits| + 1
  }

  /** From a newest block that is stored with its header, every other event leaves one. */
  lemma HeaderStaysStoredExactly(cfg: ChainConfig, m: Machine, e: Event)
    requires Sound(m) && HeaderStored(m.Disk())
    ensures HeaderStored(Next(cfg, m, e).Disk()) <==> !LosesHeader(cfg, m, e)
  {
    hide ApplyWrites, Act, StoringOf, HeaderStored;
    var a, storing := e.action, StoringOf(cfg, m, e.action);
    ActionWrites(cfg, m, a);
    if storing.Some? {
      var kept := if e.Do? then |WritesOf(cfg, m, a)| else e.kept;
      StoredOnTop(cfg, m, a);
      HeaderStaysExactly(m.Disk(), storing.value.commits, storing.value.block, kept);
    } else {
      NoWrites(m.Disk());
    }
  }

  /** A block of a peer carries the hash of its header, which no check compares. */
  predicate Hashed(a: Action) {
    a.Receive? ==> WellHashed(a.block)
  }

  predicate AllHashed(events: seq<Event>) {
    forall i | 0 <= i < |events| :: Hashed(events[i].action)
  }
}
