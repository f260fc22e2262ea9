/** What every run of a node keeps, whatever happens in it. */
module RunLaws {
  import opened Wrappers
  import opened Addresses
  import opened Transactions
  import opened Ledger
  import opened LedgerLaws
  import opened Blocks
  import opened Storage
  import opened ChainStates
  import opened TxPools
  import opened NodeStates

  lemma {:induction false} RunsAreSound(cfg: ChainConfig, events: seq<Event>)
    ensures Sound(Run(cfg, events))
  {
    hide Next;
    if events != [] {
      var n := |events| - 1;
      RunsAreSound(cfg, events[..n]);
      StaysSound(cfg, Run(cfg, events[..n]), events[n]);
    }
  }

  /** The disk can be started before and after every event. */
  predicate AlwaysRestartable(cfg: ChainConfig, events: seq<Event>) {
    forall i | 0 <= i <= |events| :: Startable(Run(cfg, events[..i]).Disk())
  }

  /**
   * Crash consistency of whole runs: a node that began on a blank disk can be started again at every point of a run,
   * whatever crashes there were, exactly when no event of it stored a peer's block with an unknown state root.
   */
  lemma {:induction false} RunsRestartExactly(cfg: ChainConfig, events: seq<Event>)
    ensures AlwaysRestartable(cfg, events) <==>
            forall i | 0 <= i < |events| :: !StoresUnknown(cfg, Run(cfg, events[..i]), events[i])
  {
    hide Next, StoresUnknown, Run;
    EmptyRun(cfg);
    if events != [] {
      var n, front := |events| - 1, events[..|events| - 1];
      RunsRestartExactly(cfg, front);
      RunsAreSound(cfg, front);
      assert events[..n + 1] == events;
      assert forall i | 0 <= i <= n :: front[..i] == events[..i];
      RunNext(cfg, events, n);
      if Startable(Run(cfg, front).Disk()) {
        RestartableExactly(cfg, Run(cfg, front), events[n]);
      }
    }
  }

  /**
   * At every point of a run the newest block is stored with its header, exactly when no crash left just one write of
   * a block that carried the newest block's hash.
   */
  lemma {:induction false} RunsKeepHeaderExactly(cfg: ChainConfig, events: seq<Event>)
    ensures (forall i | 0 <= i <= |events| :: HeaderStored(Run(cfg, events[..i]).Disk())) <==>
            forall i | 0 <= i < |events| :: !LosesHeader(cfg, Run(cfg, events[..i]), events[i])
  {
    hide Next, LosesHeader, HeaderStored, Run;
    EmptyRun(cfg);
    if events != [] {
      var n, front := |events| - 1, events[..|events| - 1];
      RunsKeepHeaderExactly(cfg, front);
      RunsAreSound(cfg, front);
      assert events[..n + 1] == events;
      assert forall i | 0 <= i <= n :: front[..i] == events[..i];
      RunNext(cfg, events, n);
      if HeaderStored(Run(cfg, front).Disk()) {
        HeaderStaysStoredExactly(cfg, Run(cfg, front), events[n]);
      }
    }
  }

  lemma UnknownRootIsAdded(cfg: ChainConfig, b: Block)
    requires b.header.stateRoot != EMPTY_ROOT && b == Child(Genesis(), b.header.stateRoot, [], 0, 0)
    ensures Act(cfg, Off(BLANK), Start).Up?
    ensures PassesIsValidBlock(Genesis(), b)
    ensures var m := Act(cfg, Act(cfg, Off(BLANK), Start), Receive(b));
            m.Up? && m.node.chain.current == b && !m.node.chain.Opens(b.header.stateRoot) &&
            m.Disk() == Store(Store(BLANK, Genesis()), b) && !Startable(m.Disk())
  {
  }

  /**
   * IsValidBlock does not look at the state root, and AddBlock stores the block whatever executing it gives: after a
   * peer's block with a made-up root the state cannot be opened and the node cannot be started again.
   */
  lemma UnknownRootIsStored(cfg: ChainConfig, b: Block)
    requires b.header.stateRoot != EMPTY_ROOT && b == Child(Genesis(), b.header.stateRoot, [], 0, 0)
    ensures var events := [Do(Start), Do(Receive(b)), CrashIn(Start, 0), Do(Start)];
            var m := Run(cfg, events[..2]);
            m.Up? && m.node.chain.current == b && !m.node.chain.Opens(b.header.stateRoot) && !Startable(m.Disk()) &&
            Run(cfg, events) == Off(m.Disk())
  {
    var events := [Do(Start), Do(Receive(b)), CrashIn(Start, 0), Do(Start)];
    UnknownRootIsAdded(cfg, b);
    assert events[..4] == events && events[..0] == [];
    hide Run, Added, Started, Child, Store, Startable, ApplyWrites;
    EmptyRun(cfg);
    RunNext(cfg, events, 0);
    RunNext(cfg, events, 1);
    RunNext(cfg, events, 2);
    RunNext(cfg, events, 3);
    NoWrites(Run(cfg, events[..2]).Disk());
  }

  /**
   * Such a node goes on mining and storing empty blocks; the first block with a transaction in it ends the process.
   */
  lemma UnknownRootPanicsLater(cfg: ChainConfig, b: Block, tx: Transaction, now: nat)
    requires b.header.stateRoot != EMPTY_ROOT && b == Child(Genesis(), b.header.stateRoot, [], 0, 0)
    requires cfg.blockSize > 0
    ensures var m := Run(cfg, [Do(Start), Do(Receive(b))]);
            Act(cfg, m, Mine(now)).Up? && Act(cfg, Act(cfg, m, Submit([tx], now)), Mine(now)) == Off(m.Disk())
  {
    UnknownRootIsAdded(cfg, b);
    TwoEvents(cfg, Do(Start), Do(Receive(b)));
    hide Run, Added, Started, Child, Store, Startable, ApplyWrites, Executing;
    var m := Run(cfg, [Do(Start), Do(Receive(b))]);
    assert m.node.queue == [];
    assert [] + StampAll([tx], now) == StampAll([tx], now);
  }

  lemma RunNext(cfg: ChainConfig, events: seq<Event>, i: nat)
    requires i < |events|
    ensures Run(cfg, events[..i + 1]) == Next(cfg, Run(cfg, events[..i]), events[i])
  {
    assert events[..i + 1][..i] == events[..i];
  }

  // ----- The chain on the disk -----

  /** The blocks the newest pointer has named in a run, in order. */
  function ChainOf(cfg: ChainConfig, events: seq<Event>): (chain: seq<Block>) {
    if events == [] then []
    else
      var n := |events| - 1;
      var m, chain := Run(cfg, events[..n]), ChainOf(cfg, events[..n]);
      if Stores(cfg, m, events[n]) then chain + [StoringOf(cfg, m, events[n].action).value.block] else chain
  }

  lemma ChainNext(cfg: ChainConfig, events: seq<Event>, i: nat)
    requires i < |events|
    ensures ChainOf(cfg, events[..i + 1])
         == var m, chain := Run(cfg, events[..i]), ChainOf(cfg, events[..i]);
            if Stores(cfg, m, events[i]) then chain + [StoringOf(cfg, m, events[i].action).value.block] else chain
  {
    assert events[..i + 1][..i] == events[..i];
  }

  /** The chain ends in the block the newest pointer names. */
  ghost predicate EndsInNewest(d: DiskState, chain: seq<Block>) {
    if chain == [] then d.newest.None?
    else
      var last := chain[|chain| - 1];
      Linked(chain) && d.newest == Some(last.hash) && last.hash in d.blocks && d.blocks[last.hash] == last
  }

  lemma StoredTops(cfg: ChainConfig, m: Machine, a: Action, chain: seq<Block>)
    requires Sound(m) && StoringOf(cfg, m, a).Some? && EndsInNewest(m.Disk(), chain)
    ensures Tops(chain, StoringOf(cfg, m, a).value.block) && (chain == [] <==> m.Off?)
  {
    hide StoringOf, Act, Linked;
    StoredOnTop(cfg, m, a);
  }

  lemma ChainEndsInNewest(cfg: ChainConfig, m: Machine, e: Event, chain: seq<Block>)
    requires Sound(m) && EndsInNewest(m.Disk(), chain)
    ensures EndsInNewest(Next(cfg, m, e).Disk(),
              if Stores(cfg, m, e) then chain + [StoringOf(cfg, m, e.action).value.block] else chain)
  {
    hide StoringOf, Linked, ApplyWrites, Tops, BlockWrites, Cut, Kept;
    var storing := StoringOf(cfg, m, e.action);
    if storing.Some? {
      hide Next;
      StoredTops(cfg, m, e.action, chain);
      LinkedSnoc(chain, storing.value.block);
      NextIsCut(cfg, m, e);
      NewestAfterCut(m.Disk(), storing.value.commits, storing.value.block, Kept(cfg, m, e));
    } else {
      NothingStored(cfg, m, e);
    }
  }

  /** How many of an action's writes reach the disk in the event. */
  function Kept(cfg: ChainConfig, m: Machine, e: Event): (kept: nat) {
    if e.Do? then |WritesOf(cfg, m, e.action)| else e.kept
  }

  lemma NextIsCut(cfg: ChainConfig, m: Machine, e: Event)
    requires StoringOf(cfg, m, e.action).Some?
    ensures var s := StoringOf(cfg, m, e.action).value;
            Next(cfg, m, e).Disk() == ApplyWrites(m.Disk(), Cut(s.commits + BlockWrites(s.block), Kept(cfg, m, e))) &&
            (e.Do? ==> Kept(cfg, m, e) == |s.commits| + 3) && (e.CrashIn? ==> Kept(cfg, m, e) == e.kept)
  {
    hide StoringOf, Act, ApplyWrites;
    ActionWrites(cfg, m, e.action);
  }

  /**
   * In every run, whatever crashes there were and whatever roots and hashes the blocks carry, the blocks the newest
   * pointer has named have heights 0 to n, each names the one before as its parent, and a running node stands on the
   * last, which is the newest one now.
   */
  lemma {:induction false} RunsFormChain(cfg: ChainConfig, events: seq<Event>)
    ensures var m, chain := Run(cfg, events), ChainOf(cfg, events);
            EndsInNewest(m.Disk(), chain) && (m.Up? ==> chain != [] && chain[|chain| - 1] == m.node.chain.current)
  {
    hide Next, StoringOf, Linked;
    RunsAreSound(cfg, events);
    if events != [] {
      var n := |events| - 1;
      RunsFormChain(cfg, events[..n]);
      RunsAreSound(cfg, events[..n]);
      ChainEndsInNewest(cfg, Run(cfg, events[..n]), events[n], ChainOf(cfg, events[..n]));
    }
  }

  /** The event writes a block over one of the chain that carries the same hash. */
  ghost predicate Overwrites(cfg: ChainConfig, m: Machine, e: Event, chain: seq<Block>) {
    var storing := StoringOf(cfg, m, e.action);
    storing.Some? && HashIn(chain, storing.value.block.hash) && (e.CrashIn? ==> e.kept > |storing.value.commits|)
  }

  lemma IntactEnds(d: DiskState, chain: seq<Block>)
    requires Intact(d, chain)
    ensures EndsInNewest(d, chain)
  {
  }

  lemma NothingStored(cfg: ChainConfig, m: Machine, e: Event)
    requires StoringOf(cfg, m, e.action).None?
    ensures Next(cfg, m, e).Disk() == m.Disk()
  {
    hide StoringOf, Act, ApplyWrites;
    ActionWrites(cfg, m, e.action);
    NoWrites(m.Disk());
  }

  /** Every event leaves the chain stored, or else no chain is. */
  lemma ChainSurvivesExactly(cfg: ChainConfig, m: Machine, e: Event, chain: seq<Block>)
    requires Sound(m) && Intact(m.Disk(), chain)
    ensures var after := Next(cfg, m, e).Disk();
            var longer := if Stores(cfg, m, e) then chain + [StoringOf(cfg, m, e.action).value.block] else chain;
            if Overwrites(cfg, m, e, chain) then forall c :: !Intact(after, c) else Intact(after, longer)
  {
    hide StoringOf, Intact, ApplyWrites, Tops, HashIn, EndsInNewest, BlockWrites, Cut, Kept;
    var storing := StoringOf(cfg, m, e.action);
    IntactEnds(m.Disk(), chain);
    if storing.Some? {
      hide Next;
      StoredTops(cfg, m, e.action, chain);
      NextIsCut(cfg, m, e);
      TakesOnChain(m.Disk(), chain, storing.value.commits, storing.value.block, Kept(cfg, m, e));
      CutKeepsIntactExactly(m.Disk(), chain, storing.value.commits, storing.value.block, Kept(cfg, m, e));
    } else {
      NothingStored(cfg, m, e);
    }
  }

  /** A block with a hash of its own takes over only when it is written completely. */
  lemma TakesOnChain(d: DiskState, chain: seq<Block>, commits: seq<DiskWrite>, b: Block, kept: nat)
    requires EndsInNewest(d, chain)
    ensures kept <= |commits| || !HashIn(chain, b.hash) ==> (Takes(d, commits, b, kept) <==> kept >= |commits| + 3)
  {
    assert chain != [] ==> HashIn(chain, chain[|chain| - 1].hash);
  }

  /**
   * Chain integrity of whole runs with any crashes: from the newest pointer down to the genesis block the disk holds
   * the whole chain at every point, exactly when no block was written over one of the chain with the same hash.
   */
  lemma {:induction false} RunsKeepChainExactly(cfg: ChainConfig, events: seq<Event>)
    ensures (forall i | 0 <= i <= |events| :: Intact(Run(cfg, events[..i]).Disk(), ChainOf(cfg, events[..i]))) <==>
            forall i | 0 <= i < |events| ::
              !Overwrites(cfg, Run(cfg, events[..i]), events[i], ChainOf(cfg, events[..i]))
  {
    hide Next, Overwrites, Intact, StoringOf, Run, ChainOf;
    EmptyRun(cfg);
    if events != [] {
      var n, front := |events| - 1, events[..|events| - 1];
      RunsKeepChainExactly(cfg, front);
      RunsAreSound(cfg, front);
      assert events[..n + 1] == events;
      assert forall i | 0 <= i <= n :: front[..i] == events[..i];
      RunNext(cfg, events, n);
      ChainNext(cfg, events, n);
      if Intact(Run(cfg, front).Disk(), ChainOf(cfg, front)) {
        ChainSurvivesExactly(cfg, Run(cfg, front), events[n], ChainOf(cfg, front));
      }
    }
  }

  /** A crash after the first and before the third write of a block. */
  predicate LeavesStray(cfg: ChainConfig, m: Machine, e: Event) {
    e.CrashIn? && m.Up? && StoringOf(cfg, m, e.action).Some? &&
    |WritesOf(cfg, m, e.action)| - 2 <= e.kept < |WritesOf(cfg, m, e.action)|
  }

  lemma ShapedEnds(d: DiskState, chain: seq<Block>)
    requires Shaped(d, chain)
    ensures EndsInNewest(d, chain)
  {
  }

  /** Every event leaves each height stored exactly once, or else nothing is a chain of all stored blocks. */
  lemma ShapeSurvivesExactly(cfg: ChainConfig, m: Machine, e: Event, chain: seq<Block>)
    requires Sound(m) && Shaped(m.Disk(), chain)
    ensures var after := Next(cfg, m, e).Disk();
            var longer := if Stores(cfg, m, e) then chain + [StoringOf(cfg, m, e.action).value.block] else chain;
            if LeavesStray(cfg, m, e) || Overwrites(cfg, m, e, chain) then forall c :: !Shaped(after, c)
            else Shaped(after, longer)
  {
    hide StoringOf, Shaped, ApplyWrites, Tops, HashIn, EndsInNewest, Cut, Kept;
    var storing := StoringOf(cfg, m, e.action);
    ShapedEnds(m.Disk(), chain);
    if storing.Some? {
      hide Next;
      var kept := Kept(cfg, m, e);
      StoredTops(cfg, m, e.action, chain);
      NextIsCut(cfg, m, e);
      TakesOnChain(m.Disk(), chain, storing.value.commits, storing.value.block, kept);
      CutKeepsShapeExactly(m.Disk(), chain, storing.value.commits, storing.value.block, kept);
      NoHashes(storing.value.block.hash);
      assert LeavesStray(cfg, m, e) <==> chain != [] && |storing.value.commits| < kept < |storing.value.commits| + 3;
    } else {
      NothingStored(cfg, m, e);
    }
  }

  /** Neither a stray block nor a block written over the chain. */
  ghost predicate Clean(cfg: ChainConfig, events: seq<Event>) {
    forall i | 0 <= i < |events| ::
      !LeavesStray(cfg, Run(cfg, events[..i]), events[i]) &&
      !Overwrites(cfg, Run(cfg, events[..i]), events[i], ChainOf(cfg, events[..i]))
  }

  /**
   * At every point of a run the stored heights are 0 to n exactly once each, exactly when no crash fell after the
   * first and before the third write of a block and no block was written over one of the chain.
   */
  lemma {:induction false} RunsKeepShapeExactly(cfg: ChainConfig, events: seq<Event>)
    ensures (forall i | 0 <= i <= |events| :: Shaped(Run(cfg, events[..i]).Disk(), ChainOf(cfg, events[..i]))) <==>
            Clean(cfg, events)
  {
    hide Next, LeavesStray, Overwrites, Shaped, StoringOf, Run, ChainOf;
    EmptyRun(cfg);
    if events != [] {
      var n, front := |events| - 1, events[..|events| - 1];
      RunsKeepShapeExactly(cfg, front);
      RunsAreSound(cfg, front);
      assert events[..n + 1] == events;
      assert forall i | 0 <= i <= n :: front[..i] == events[..i];
      RunNext(cfg, events, n);
      ChainNext(cfg, events, n);
      if Shaped(Run(cfg, front).Disk(), ChainOf(cfg, front)) {
        ShapeSurvivesExactly(cfg, Run(cfg, front), events[n], ChainOf(cfg, front));
      }
    }
  }

  // ----- When every hash is that of its header, and when one is not -----

  ghost predicate HashedChain(chain: seq<Block>) {
    forall i | 0 <= i < |chain| :: WellHashed(chain[i])
  }

  lemma StoredIsHashed(cfg: ChainConfig, m: Machine, a: Action)
    requires Hashed(a) && StoringOf(cfg, m, a).Some?
    ensures WellHashed(StoringOf(cfg, m, a).value.block)
  {
    hide NewTrie, RootAfter, ApplyTxs;
  }

  lemma HashedIsNew(chain: seq<Block>, b: Block)
    requires (chain == [] || Linked(chain)) && HashedChain(chain) && Tops(chain, b) && WellHashed(b)
    ensures !HashIn(chain, b.hash)
  {
  }

  lemma HashedStep(cfg: ChainConfig, m: Machine, e: Event, chain: seq<Block>)
    requires Sound(m) && EndsInNewest(m.Disk(), chain) && HashedChain(chain) && Hashed(e.action)
    ensures !Overwrites(cfg, m, e, chain)
    ensures Stores(cfg, m, e) ==> HashedChain(chain + [StoringOf(cfg, m, e.action).value.block])
  {
    hide StoringOf, HashIn, Linked, WellHashed;
    if StoringOf(cfg, m, e.action).Some? {
      StoredIsHashed(cfg, m, e.action);
      StoredTops(cfg, m, e.action, chain);
      HashedIsNew(chain, StoringOf(cfg, m, e.action).value.block);
    }
  }

  lemma {:induction false} HashedRunsStayHashed(cfg: ChainConfig, events: seq<Event>)
    requires AllHashed(events)
    ensures HashedChain(ChainOf(cfg, events))
  {
    if events != [] {
      hide Hashed, HashedChain, StoringOf, Stores, Overwrites, EndsInNewest, Run;
      var n, front := |events| - 1, events[..|events| - 1];
      HashedRunsStayHashed(cfg, front);
      RunsAreSound(cfg, front);
      RunsFormChain(cfg, front);
      HashedStep(cfg, Run(cfg, front), events[n], ChainOf(cfg, front));
    }
  }

  /** If every received block carries the hash of its header, no block is ever written over the chain. */
  lemma HashedRunsNeverOverwrite(cfg: ChainConfig, events: seq<Event>)
    requires AllHashed(events)
    ensures forall i | 0 <= i < |events| ::
              !Overwrites(cfg, Run(cfg, events[..i]), events[i], ChainOf(cfg, events[..i]))
  {
    hide Hashed, HashedChain, StoringOf, Stores, Overwrites, EndsInNewest, Run, ChainOf;
    forall i | 0 <= i < |events|
      ensures !Overwrites(cfg, Run(cfg, events[..i]), events[i], ChainOf(cfg, events[..i]))
    {
      HashedRunsStayHashed(cfg, events[..i]);
      RunsAreSound(cfg, events[..i]);
      RunsFormChain(cfg, events[..i]);
      HashedStep(cfg, Run(cfg, events[..i]), events[i], ChainOf(cfg, events[..i]));
    }
  }

  /** So such a run without crashes, restarts included, always has the chain shape. */
  lemma CrashFreeRunsKeepShape(cfg: ChainConfig, events: seq<Event>)
    requires AllHashed(events) && forall i | 0 <= i < |events| :: events[i].Do?
    ensures Clean(cfg, events) && Shaped(Run(cfg, events).Disk(), ChainOf(cfg, events))
  {
    HashedRunsNeverOverwrite(cfg, events);
    RunsKeepShapeExactly(cfg, events);
    assert events[..|events|] == events;
  }

  lemma ForgedIsAdded(cfg: ChainConfig, b: Block)
    requires Forged(b)
    ensures PassesIsValidBlock(Genesis(), b) && Act(cfg, Off(BLANK), Start).Up?
    ensures var m := Act(cfg, Off(BLANK), Start);
            m.Disk() == Store(BLANK, Genesis()) && StoringOf(cfg, m, Receive(b)) == Some(Storing([], b)) &&
            Act(cfg, m, Receive(b)).Up? && Act(cfg, m, Receive(b)).node.chain.current == b &&
            Act(cfg, m, Receive(b)).Disk() == Store(Store(BLANK, Genesis()), b)
  {
  }

  /** A block made up by a peer that carries the hash of the genesis block. */
  predicate Forged(b: Block) {
    b == Child(Genesis(), b.header.stateRoot, [], b.header.time, 0).(hash := Genesis().hash)
  }

  /**
   * IsValidBlock does not compare a block's hash with its header either: a block that carries the hash of the genesis
   * block is written over it, and no chain is left.
   */
  lemma ForgedHashBreaksChain(cfg: ChainConfig, b: Block)
    requires Forged(b)
    ensures var m := Run(cfg, [Do(Start), Do(Receive(b))]);
            PassesIsValidBlock(Genesis(), b) && m.Up? && m.node.chain.current == b &&
            m.Disk().blocks == map[Genesis().hash := b] && forall c :: !Intact(m.Disk(), c)
  {
    var events, started := [Do(Start), Do(Receive(b))], Store(BLANK, Genesis());
    ForgedIsAdded(cfg, b);
    TwoEvents(cfg, Do(Start), Do(Receive(b)));
    GenesisIsIntact(started);
    assert [Genesis()][0] == Genesis() && HashIn([Genesis()], b.hash);
    hide Run, StoringOf, Act;
    forall c ensures !Intact(Store(started, b), c) {
      OverwritingBreaksChain(started, [Genesis()], b, Store(started, b), c);
    }
  }

  /**
   * And a crash after the first of its writes already resumes on it, without its header, or leaves a disk that cannot
   * be started when its state root is unknown.
   */
  lemma ForgedHashTakesAtOnce(cfg: ChainConfig, b: Block)
    requires Forged(b)
    ensures var found := Run(cfg, [Do(Start), CrashIn(Receive(b), 1)]).Disk();
            (Startable(found) <==> b.header.stateRoot == EMPTY_ROOT) && (Startable(found) ==> ResumesOn(found) == b) &&
            !HeaderStored(found)
  {
    ForgedIsAdded(cfg, b);
    TwoEvents(cfg, Do(Start), CrashIn(Receive(b), 1));
    hide Run, StoringOf, Act;
    ApplyBlockWrites(Store(BLANK, Genesis()), b);
    assert [] + BlockWrites(b) == BlockWrites(b) && Cut(BlockWrites(b), 1) == BlockWrites(b)[..1];
  }

  lemma TwoEvents(cfg: ChainConfig, first: Event, second: Event)
    ensures Run(cfg, [first, second]) == Next(cfg, Next(cfg, Off(BLANK), first), second)
  {
    var events := [first, second];
    assert events[..0] == [] && events[..2] == events;
    EmptyRun(cfg);
    RunNext(cfg, events, 0);
    RunNext(cfg, events, 1);
  }

  lemma GenesisIsIntact(d: DiskState)
    requires d == Store(BLANK, Genesis())
    ensures Intact(d, [Genesis()])
  {
  }

  lemma EmptyRun(cfg: ChainConfig)
    ensures Run(cfg, []) == Off(BLANK) && ChainOf(cfg, []) == [] && Shaped(BLANK, []) && Intact(BLANK, []) &&
            Startable(BLANK) && HeaderStored(BLANK)
  {
  }

  // ----- AllStateMapTx -----

  /** Every entry of AllStateMapTx equals the entry of the current trie, and queued transactions have real addresses. */
  predicate Agrees(m: Machine) {
    m.Up? ==> VirtualsAgree(m.node.chain.Ledger()) && AllReal(m.node.queue)
  }

  /** Real addresses only; a peer's block carries the root of executing it, and is executed here. */
  predicate HonestEvent(cfg: ChainConfig, m: Machine, e: Event) {
    match e.action
    case Submit(txs, _) => AllReal(txs)
    case Receive(b) =>
      m.Up? && Accepts(m.node.chain, b) ==> Foreign(cfg, b) && Honest(cfg, m.node.chain.current, b) && AllReal(b.body)
    case _ => true
  }

  lemma HonestAddAgrees(cfg: ChainConfig, s: ChainState, b: Block)
    requires VirtualsAgree(s.Ledger()) && AllReal(b.body) && Honest(cfg, s.current, b)
    ensures Foreign(cfg, b) ==> VirtualsAgree(Added(cfg, s, b).Ledger())
    ensures VirtualsAgree(Added(cfg, Executing(cfg, s, b.body), b).Ledger())
  {
    hide ApplyTxs, VirtualsAgree;
    AddedBlockAgrees(cfg, s.current.header.stateRoot.content, s.virtuals, b.body);
  }

  lemma RealParts(a: seq<Transaction>, b: seq<Transaction>, now: nat)
    ensures AllReal(a + b) <==> AllReal(a) && AllReal(b)
    ensures AllReal(StampAll(b, now)) <==> AllReal(b)
  {
    if AllReal(a + b) {
      assert forall i | 0 <= i < |a| :: a[i] == (a + b)[i];
      assert forall i | 0 <= i < |b| :: b[i] == (a + b)[|a| + i];
    }
    assert forall i | 0 <= i < |b| :: StampAll(b, now)[i] == Stamp(b[i], now);
  }

  lemma StaysAgreed(cfg: ChainConfig, m: Machine, e: Event)
    requires Agrees(m) && HonestEvent(cfg, m, e)
    ensures Agrees(Next(cfg, m, e))
  {
    hide AllReal, VirtualsAgree, Added, Executing, ApplyWrites, Front;
    if m.Off? {
      NothingAgrees();
    } else {
      var s := m.node.chain;
      match e.action
      case Submit(txs, now) =>
        RealParts([], txs, now);
        RealParts(m.node.queue, StampAll(txs, now), now);
      case Mine(now) =>
        var body := Front(m.node.queue, cfg.blockSize);
        assert body + m.node.queue[|body|..] == m.node.queue;
        RealParts(body, m.node.queue[|body|..], now);
        HonestAddAgrees(cfg, s, NextBlock(cfg, s.current, body, now));
      case Receive(b) =>
        if Accepts(s, b) {
          HonestAddAgrees(cfg, s, b);
        }
      case _ =>
    }
  }

  lemma NothingAgrees()
    ensures AllReal([]) && forall st: Trie :: VirtualsAgree(Exec(st, 0, map[]))
  {
  }

  /** In every run whose blocks are honest and executed here AllStateMapTx agrees with the trie at every point. */
  lemma {:induction false} RunsKeepVirtualsAgreed(cfg: ChainConfig, events: seq<Event>)
    requires forall i | 0 <= i < |events| :: HonestEvent(cfg, Run(cfg, events[..i]), events[i])
    ensures Agrees(Run(cfg, events))
  {
    hide Next, HonestEvent;
    if events != [] {
      var n, front := |events| - 1, events[..|events| - 1];
      assert forall i | 0 <= i <= n :: front[..i] == events[..i];
      RunsKeepVirtualsAgreed(cfg, front);
      StaysAgreed(cfg, Run(cfg, front), events[n]);
    }
  }

  // ----- The chain and the ledger -----

  /** A peer's block that is stored carries the root of executing it. */
  predicate HonestRoot(cfg: ChainConfig, m: Machine, e: Event) {
    Stores(cfg, m, e) && e.action.Receive? ==> Honest(cfg, m.node.chain.current, e.action.block)
  }

  lemma StoredIsHonest(cfg: ChainConfig, m: Machine, e: Event)
    requires HonestRoot(cfg, m, e) && Stores(cfg, m, e) && m.Up?
    ensures Honest(cfg, m.node.chain.current, StoringOf(cfg, m, e.action).value.block)
  {
    hide ApplyTxs, NewTrie;
  }

  /** In a run of honest blocks, crashes included, every block on the chain carries the root of executing it. */
  lemma {:induction false} ChainIsExecuted(cfg: ChainConfig, events: seq<Event>)
    requires forall i | 0 <= i < |events| :: HonestRoot(cfg, Run(cfg, events[..i]), events[i])
    ensures var chain := ChainOf(cfg, events);
            forall i | 0 < i < |chain| :: Honest(cfg, chain[i - 1], chain[i])
  {
    hide Next, HonestRoot, StoringOf, Stores, Honest, EndsInNewest;
    if events != [] {
      var n, front := |events| - 1, events[..|events| - 1];
      var m := Run(cfg, front);
      assert forall i | 0 <= i <= n :: front[..i] == events[..i];
      ChainIsExecuted(cfg, front);
      RunsFormChain(cfg, front);
      if Stores(cfg, m, events[n]) {
        if m.Up? {
          StoredIsHonest(cfg, m, events[n]);
        } else {
          OffHasNoChain(cfg, m, events[n], ChainOf(cfg, front));
        }
      }
    }
  }

  lemma OffHasNoChain(cfg: ChainConfig, m: Machine, e: Event, chain: seq<Block>)
    requires m.Off? && Stores(cfg, m, e) && EndsInNewest(m.Disk(), chain)
    ensures chain == []
  {
    hide Linked;
  }

  /** The bodies of the blocks after the first. */
  function Bodies(chain: seq<Block>): (bodies: seq<seq<Transaction>>)
    ensures |bodies| == if chain == [] then 0 else |chain| - 1
    ensures forall i | 0 <= i < |bodies| :: bodies[i] == chain[i + 1].body
  {
    if chain == [] then [] else seq(|chain| - 1, i requires 0 <= i < |chain| - 1 => chain[i + 1].body)
  }

  /**
   * The last state of such a chain is the history of its blocks executed one after the other from an empty trie, so
   * that the laws of histories, such as VirtualAccountsCarryHistory, hold of it.
   */
  lemma {:induction false} ChainStateIsHistory(cfg: ChainConfig, chain: seq<Block>)
    requires chain != [] && chain[0] == Genesis()
    requires forall i | 0 < i < |chain| :: Honest(cfg, chain[i - 1], chain[i]) && AllReal(chain[i].body)
    ensures forall i | 0 <= i < |Bodies(chain)| :: AllReal(Bodies(chain)[i])
    ensures RunBatches(cfg, Bodies(chain)).st == chain[|chain| - 1].header.stateRoot.content
  {
    hide ApplyTxs, AllReal;
    if |chain| > 1 {
      var n := |chain| - 1;
      ChainStateIsHistory(cfg, chain[..n]);
      assert Bodies(chain)[..n - 1] == Bodies(chain[..n]);
    }
  }
}
