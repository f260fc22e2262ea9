/** Two replicas of one shard: a leader that mines and a follower that adds the leader's blocks. */
module Replicas {
  import opened Wrappers
  import opened Addresses
  import opened Transactions
  import opened Ledger
  import opened LedgerLaws
  import opened Blocks
  import opened Storage
  import opened ChainStates
  import opened TxPools
  import opened BlockChains
  import opened NodeStates
  import opened RunLaws
  import opened GoSlices
  import opened Runs

  /** What both do on their own, and the time at which the leader then mines a block for both. */
  datatype Round = Round(leaderActs: seq<Action>, followerActs: seq<Action>, now: nat)

  /** Submissions and changes of the partition map. */
  predicate Local(acts: seq<Action>) {
    forall i | 0 <= i < |acts| :: acts[i].Submit? || acts[i].Remap?
  }

  predicate AllLocal(rounds: seq<Round>) {
    forall i | 0 <= i < |rounds| :: Local(rounds[i].leaderActs) && Local(rounds[i].followerActs)
  }

  /** The leader is still running after its rounds: no batch it mined panicked. */
  predicate LeaderStaysUp(c: ChainConfig, rounds: seq<Round>) {
    Run(c, LeaderEvents(rounds)).Up?
  }

  function DoAll(acts: seq<Action>): (events: seq<Event>)
    ensures |events| == |acts|
  {
    seq(|acts|, i requires 0 <= i < |acts| => Do(acts[i]))
  }

  function LeaderEvents(rounds: seq<Round>): (events: seq<Event>) {
    if rounds == [] then [Do(Start)]
    else
      var n := |rounds| - 1;
      LeaderEvents(rounds[..n]) + DoAll(rounds[n].leaderActs) + [Do(Mine(rounds[n].now))]
  }

  /** After every round the follower receives the leader's block of that height. */
  function FollowerEvents(rounds: seq<Round>, chain: seq<Block>): (events: seq<Event>)
    requires |chain| > |rounds|
  {
    if rounds == [] then [Do(Start)]
    else
      var n := |rounds| - 1;
      FollowerEvents(rounds[..n], chain) + DoAll(rounds[n].followerActs) + [Do(Receive(chain[n + 1]))]
  }

  // ----- Runs of events that do not store a block -----

  lemma OneMore(cfg: ChainConfig, events: seq<Event>, e: Event)
    ensures Run(cfg, events + [e]) == Next(cfg, Run(cfg, events), e)
    ensures ChainOf(cfg, events + [e])
         == ChainOf(cfg, events) +
            if Stores(cfg, Run(cfg, events), e) then [StoringOf(cfg, Run(cfg, events), e.action).value.block] else []
  {
    hide Next, Stores, StoringOf;
    assert (events + [e])[..|events|] == events;
    assert ChainOf(cfg, events) + [] == ChainOf(cfg, events);
  }

  /** What both replicas keep: standing on the last block of the chain, on a disk that can be started again. */
  predicate StandsOn(cfg: ChainConfig, m: Machine, b: Block) {
    m.Up? && m.node.chain.current == b && Sound(m) && Startable(m.Disk())
  }

  lemma LocalKeepsStanding(cfg: ChainConfig, m: Machine, a: Action, b: Block)
    requires (a.Submit? || a.Remap?) && StandsOn(cfg, m, b)
    ensures StandsOn(cfg, Next(cfg, m, Do(a)), b) && !Stores(cfg, m, Do(a))
  {
  }

  lemma {:induction false} LocalRunsKeepStanding(cfg: ChainConfig, events: seq<Event>, acts: seq<Action>, b: Block)
    requires Local(acts) && StandsOn(cfg, Run(cfg, events), b)
    ensures StandsOn(cfg, Run(cfg, events + DoAll(acts)), b)
    ensures ChainOf(cfg, events + DoAll(acts)) == ChainOf(cfg, events)
  {
    if acts == [] {
      assert events + DoAll(acts) == events;
    } else {
      var n := |acts| - 1;
      DoneNext(events, acts, n);
      assert acts[..n + 1] == acts;
      hide Next, Stores, StandsOn, Run, ChainOf, DoAll;
      LocalRunsKeepStanding(cfg, events, acts[..n], b);
      LocalKeepsStanding(cfg, Run(cfg, events + DoAll(acts[..n])), acts[n], b);
      OneMore(cfg, events + DoAll(acts[..n]), Do(acts[n]));
    }
  }

  // ----- One round -----

  /** A block that d receives, accepts on top of last and executes to the root in its header. */
  ghost predicate HonestOnTop(d: ChainConfig, last: Block, b: Block) {
    AllSurvive(d, last.header.stateRoot.content, b.body) && Foreign(d, b) && WellHashed(b) &&
    Extends(last, b) && PassesIsValidBlock(last, b) && Honest(d, last, b)
  }

  /** The leader mines a block that is honest for every other node of the shard. */
  lemma LeaderMines(c: ChainConfig, d: ChainConfig, m: Machine, now: nat, last: Block)
    requires StandsOn(c, m, last) && Act(c, m, Mine(now)).Up? && SameShard(c, d) && d.nodeID != 0
    ensures StoringOf(c, m, Mine(now)).Some?
    ensures var b := StoringOf(c, m, Mine(now)).value.block;
            StandsOn(c, Next(c, m, Do(Mine(now))), b) && HonestOnTop(d, last, b)
  {
    var st, body := last.header.stateRoot.content, Front(m.node.queue, c.blockSize);
    hide AllSurvive, Executing, NewTrie, ApplyTxs;
    StoredOnTop(c, m, Mine(now));
    StaysSound(c, m, Do(Mine(now)));
    RestartableExactly(c, m, Do(Mine(now)));
    ReplicasExecuteAlike(c, d, Exec(st, 0, map[]), Exec(st, 0, map[]), body);
    ReplicasSurviveAlike(c, d, st, body);
  }

  lemma FollowerAdds(d: ChainConfig, m: Machine, last: Block, b: Block)
    requires StandsOn(d, m, last) && HonestOnTop(d, last, b)
    ensures StandsOn(d, Next(d, m, Do(Receive(b))), b)
    ensures StoringOf(d, m, Receive(b)).Some? && StoringOf(d, m, Receive(b)).value.block == b
    ensures RootAfter(d, last, b.body) == b.header.stateRoot
  {
    hide AllSurvive, Executing, NewTrie, ApplyTxs;
    RootIsNewOrOld(d, last, b.body);
    StaysSound(d, m, Do(Receive(b)));
    RestartableExactly(d, m, Do(Receive(b)));
  }

  lemma OneMoreBlock(cfg: ChainConfig, events: seq<Event>, e: Event)
    requires e.Do? && StoringOf(cfg, Run(cfg, events), e.action).Some?
    ensures Run(cfg, events + [e]) == Next(cfg, Run(cfg, events), e)
    ensures ChainOf(cfg, events + [e])
         == ChainOf(cfg, events) + [StoringOf(cfg, Run(cfg, events), e.action).value.block]
  {
    OneMore(cfg, events, e);
  }

  lemma StartsOnGenesis(cfg: ChainConfig)
    ensures ChainOf(cfg, [Do(Start)]) == [Genesis()]
    ensures StandsOn(cfg, Run(cfg, [Do(Start)]), Genesis())
  {
    EmptyRun(cfg);
    OneMore(cfg, [], Do(Start));
    EmptyPlus(Do(Start));
    EmptyPlus(Genesis());
    hide Run, ChainOf;
  }

  lemma EmptyPlus<T>(x: T)
    ensures [] + [x] == [x]
  {
  }

  // ----- All rounds -----

  lemma NoRounds(rounds: seq<Round>, chain: seq<Block>)
    ensures LeaderEvents(rounds[..0]) == [Do(Start)]
    ensures |chain| > 0 ==> FollowerEvents(rounds[..0], chain) == [Do(Start)]
  {
  }

  lemma LeaderNext(rounds: seq<Round>, i: nat)
    requires i < |rounds|
    ensures LeaderEvents(rounds[..i + 1])
         == LeaderEvents(rounds[..i]) + DoAll(rounds[i].leaderActs) + [Do(Mine(rounds[i].now))]
  {
    assert rounds[..i + 1][..i] == rounds[..i];
  }

  lemma FollowerNext(rounds: seq<Round>, i: nat, chain: seq<Block>)
    requires i < |rounds| < |chain|
    ensures FollowerEvents(rounds[..i + 1], chain)
         == FollowerEvents(rounds[..i], chain) + DoAll(rounds[i].followerActs) + [Do(Receive(chain[i + 1]))]
  {
    assert rounds[..i + 1][..i] == rounds[..i];
  }

  /** Genesis and honest blocks, each on top of the one before. */
  ghost predicate Followable(d: ChainConfig, chain: seq<Block>) {
    |chain| > 0 && chain[0] == Genesis() && forall i | 0 < i < |chain| :: HonestOnTop(d, chain[i - 1], chain[i])
  }

  lemma FollowableSnoc(d: ChainConfig, chain: seq<Block>, b: Block)
    requires Followable(d, chain) && HonestOnTop(d, chain[|chain| - 1], b)
    ensures Followable(d, chain + [b])
  {
  }

  /** A process that has ended does not come back by itself. */
  lemma {:induction false} UpBefore(cfg: ChainConfig, events: seq<Event>, acts: seq<Action>)
    requires Run(cfg, events + DoAll(acts)).Up? && forall i | 0 <= i < |acts| :: !acts[i].Start?
    ensures Run(cfg, events).Up?
  {
    if acts == [] {
      assert events + DoAll(acts) == events;
    } else {
      hide Run, DoAll;
      var n := |acts| - 1;
      DoneNext(events, acts, n);
      assert acts[..n + 1] == acts;
      OneMore(cfg, events + DoAll(acts[..n]), Do(acts[n]));
      UpBefore(cfg, events, acts[..n]);
    }
  }

  lemma LeaderUpBefore(c: ChainConfig, rounds: seq<Round>, i: nat)
    requires i < |rounds| && AllLocal(rounds) && LeaderStaysUp(c, rounds[..i + 1])
    ensures LeaderStaysUp(c, rounds[..i])
  {
    hide Run, DoAll, LeaderEvents;
    var events, acts := LeaderEvents(rounds[..i]), rounds[i].leaderActs;
    assert Local(acts);
    LeaderNext(rounds, i);
    OneMore(c, events + DoAll(acts), Do(Mine(rounds[i].now)));
    UpBefore(c, events, acts);
  }

  /** A leader that is running after all rounds was running after each. */
  lemma {:induction false} LeaderWasUp(c: ChainConfig, rounds: seq<Round>, i: nat)
    requires i <= |rounds| && AllLocal(rounds) && LeaderStaysUp(c, rounds)
    ensures LeaderStaysUp(c, rounds[..i])
    decreases |rounds| - i
  {
    hide LeaderStaysUp;
    if i == |rounds| {
      assert rounds[..i] == rounds;
    } else {
      LeaderWasUp(c, rounds, i + 1);
      LeaderUpBefore(c, rounds, i);
    }
  }

  /** One round of the leader. */
  lemma LeaderRound(c: ChainConfig, d: ChainConfig, events: seq<Event>, chain: seq<Block>, r: Round)
    returns (b: Block)
    requires ChainOf(c, events) == chain && Followable(d, chain)
    requires StandsOn(c, Run(c, events), chain[|chain| - 1])
    requires SameShard(c, d) && d.nodeID != 0 && Local(r.leaderActs)
    requires Run(c, events + DoAll(r.leaderActs) + [Do(Mine(r.now))]).Up?
    ensures StandsOn(c, Run(c, events + DoAll(r.leaderActs)), chain[|chain| - 1])
    ensures var longer := events + DoAll(r.leaderActs) + [Do(Mine(r.now))];
            ChainOf(c, longer) == chain + [b] && StandsOn(c, Run(c, longer), b)
    ensures Followable(d, chain + [b])
  {
    hide Next, StandsOn, Run, ChainOf, StoringOf, Stores, HonestOnTop;
    var acted, last := events + DoAll(r.leaderActs), chain[|chain| - 1];
    LocalRunsKeepStanding(c, events, r.leaderActs, last);
    OneMore(c, acted, Do(Mine(r.now)));
    DoIsAct(c, Run(c, acted), Mine(r.now));
    LeaderMines(c, d, Run(c, acted), r.now, last);
    OneMoreBlock(c, acted, Do(Mine(r.now)));
    b := StoringOf(c, Run(c, acted), Mine(r.now)).value.block;
    FollowableSnoc(d, chain, b);
  }

  /** One round of the follower. */
  lemma FollowerRound(d: ChainConfig, events: seq<Event>, chain: seq<Block>, r: Round, b: Block)
    requires ChainOf(d, events) == chain != []
    requires StandsOn(d, Run(d, events), chain[|chain| - 1]) && HonestOnTop(d, chain[|chain| - 1], b)
    requires Local(r.followerActs)
    ensures StandsOn(d, Run(d, events + DoAll(r.followerActs)), chain[|chain| - 1])
    ensures var longer := events + DoAll(r.followerActs) + [Do(Receive(b))];
            ChainOf(d, longer) == chain + [b] && StandsOn(d, Run(d, longer), b)
    ensures RootAfter(d, chain[|chain| - 1], b.body) == b.header.stateRoot
  {
    hide Next, StandsOn, Run, ChainOf, StoringOf, Stores;
    var acted, last := events + DoAll(r.followerActs), chain[|chain| - 1];
    LocalRunsKeepStanding(d, events, r.followerActs, last);
    FollowerAdds(d, Run(d, acted), last, b);
    OneMoreBlock(d, acted, Do(Receive(b)));
  }

  /** The leader's chain has one block per round, honest for every other node of the shard. */
  lemma {:induction false} LeaderChain(c: ChainConfig, d: ChainConfig, rounds: seq<Round>)
    requires SameShard(c, d) && d.nodeID != 0 && AllLocal(rounds) && LeaderStaysUp(c, rounds)
    ensures var chain := ChainOf(c, LeaderEvents(rounds));
            |chain| == |rounds| + 1 && Followable(d, chain) &&
            StandsOn(c, Run(c, LeaderEvents(rounds)), chain[|rounds|])
  {
    if rounds == [] {
      StartsOnGenesis(c);
    } else {
      hide Local, Run, ChainOf, StandsOn, Followable;
      var n := |rounds| - 1;
      LeaderWasUp(c, rounds, n);
      LeaderChain(c, d, rounds[..n]);
      var b := LeaderRound(
        c, d, LeaderEvents(rounds[..n]), ChainOf(c, LeaderEvents(rounds[..n])), rounds[n]);
    }
  }

  lemma OneLonger(chain: seq<Block>, n: nat)
    requires n + 1 < |chain|
    ensures chain[..n + 1] + [chain[n + 1]] == chain[..n + 2]
  {
  }

  /** A follower of honest blocks ends on their chain, executing each to the root in its header. */
  lemma {:induction false} FollowerChain(d: ChainConfig, rounds: seq<Round>, chain: seq<Block>)
    requires AllLocal(rounds) && |chain| > |rounds| && Followable(d, chain)
    ensures ChainOf(d, FollowerEvents(rounds, chain)) == chain[..|rounds| + 1]
    ensures StandsOn(d, Run(d, FollowerEvents(rounds, chain)), chain[|rounds|])
  {
    if rounds == [] {
      StartsOnGenesis(d);
    } else {
      hide Local, Run, ChainOf, StandsOn, HonestOnTop, DoAll, FollowerEvents;
      var n := |rounds| - 1;
      assert HonestOnTop(d, chain[n], chain[n + 1]);
      FollowerChain(d, rounds[..n], chain);
      FollowerNext(rounds, n, chain);
      assert rounds[..n + 1] == rounds;
      FollowerRound(d, FollowerEvents(rounds[..n], chain), chain[..n + 1], rounds[n], chain[n + 1]);
      OneLonger(chain, n);
    }
  }

  /**
   * Replica agreement over whole runs: whatever both replicas submit and however their partition maps change between
   * blocks, the follower ends on the leader's chain, both can be started again, and at every height executing the
   * block on either replica gives the header's state root.
   */
  lemma ReplicasAgree(c: ChainConfig, d: ChainConfig, rounds: seq<Round>)
    requires SameShard(c, d) && d.nodeID != 0 && AllLocal(rounds) && LeaderStaysUp(c, rounds)
    ensures var le := LeaderEvents(rounds);
            var chain := ChainOf(c, le);
            |chain| == |rounds| + 1 &&
            var fe := FollowerEvents(rounds, chain);
            ChainOf(d, fe) == chain &&
            ChainShape(Run(c, le).Disk(), chain) && ChainShape(Run(d, fe).Disk(), chain) &&
            StandsOn(c, Run(c, le), chain[|rounds|]) && StandsOn(d, Run(d, fe), chain[|rounds|]) &&
            forall i | 0 < i < |chain| ::
              RootAfter(c, chain[i - 1], chain[i].body) == RootAfter(d, chain[i - 1], chain[i].body)
                == chain[i].header.stateRoot
  {
    hide Local, Run, ChainOf, StandsOn, LeaderEvents, FollowerEvents, ChainShape, Shaped, AllSurvive;
    var le := LeaderEvents(rounds);
    LeaderChain(c, d, rounds);
    var chain := ChainOf(c, le);
    var fe := FollowerEvents(rounds, chain);
    FollowerChain(d, rounds, chain);
    assert chain[..|rounds| + 1] == chain;
    NoCrashes(d, rounds, chain);
    CrashFreeRunsKeepShape(c, le);
    CrashFreeRunsKeepShape(d, fe);
    ShapedIsChainShape(Run(c, le).Disk(), chain);
    ShapedIsChainShape(Run(d, fe).Disk(), chain);
    forall i | 0 < i < |chain|
      ensures RootAfter(c, chain[i - 1], chain[i].body) == RootAfter(d, chain[i - 1], chain[i].body)
           == chain[i].header.stateRoot
    {
      assert HonestOnTop(d, chain[i - 1], chain[i]);
      var e := Exec(chain[i - 1].header.stateRoot.content, 0, map[]);
      ReplicasExecuteAlike(d, c, e, e, chain[i].body);
    }
  }

  predicate CrashFree(events: seq<Event>) {
    forall i | 0 <= i < |events| :: events[i].Do? && Hashed(events[i].action)
  }

  lemma CrashFreeAppend(a: seq<Event>, acts: seq<Action>, e: Event)
    requires CrashFree(a) && CrashFree([e]) && forall i | 0 <= i < |acts| :: !acts[i].Receive?
    ensures CrashFree(a + DoAll(acts) + [e])
  {
    assert e == [e][0];
  }

  lemma {:induction false} NoCrashes(d: ChainConfig, rounds: seq<Round>, chain: seq<Block>)
    requires AllLocal(rounds) && |chain| > |rounds| && Followable(d, chain)
    ensures CrashFree(LeaderEvents(rounds)) && CrashFree(FollowerEvents(rounds, chain))
  {
    if rounds != [] {
      var n := |rounds| - 1;
      NoCrashes(d, rounds[..n], chain);
      assert HonestOnTop(d, chain[n], chain[n + 1]);
      assert Local(rounds[n].leaderActs) && Local(rounds[n].followerActs);
      CrashFreeAppend(LeaderEvents(rounds[..n]), rounds[n].leaderActs, Do(Mine(rounds[n].now)));
      CrashFreeAppend(FollowerEvents(rounds[..n], chain), rounds[n].followerActs, Do(Receive(chain[n + 1])));
    }
  }

  // ----- The replicas as objects -----

  /** Local actions on a running node. */
  method PerformAll(cfg: ChainConfig, node: BlockChain, acts: seq<Action>, ghost events: seq<Event>)
    requires Ready(cfg, node) && Local(acts)
    requires Up(StateOf(node)) == Run(cfg, events)
    modifies node`PartitionMap, node.Txpool`TxQueue, node.Txpool`entered, node.Txpool.TxQueue.arr
    ensures Ready(cfg, node)
    ensures Up(StateOf(node)) == Run(cfg, events + DoAll(acts))
    ensures fresh(node.Txpool.TxQueue.arr) || node.Txpool.TxQueue.arr == old(node.Txpool.TxQueue.arr)
  {
    hide Act, Run, ChainOf, ApplyWrites, DoAll, Slice.Contents;
    DoneSoFar(events, acts);
    for i := 0 to |acts|
      invariant Ready(cfg, node)
      invariant Up(StateOf(node)) == Run(cfg, events + DoAll(acts[..i]))
      invariant fresh(node.Txpool.TxQueue.arr) || node.Txpool.TxQueue.arr == old(node.Txpool.TxQueue.arr)
    {
      OneMore(cfg, events + DoAll(acts[..i]), Do(acts[i]));
      DoIsAct(cfg, Up(StateOf(node)), acts[i]);
      DoneNext(events, acts, i);
      match acts[i] {
        case Submit(txs, now) =>
          SubmitTxs(cfg, node, txs, now);
        case Remap(key, shard) =>
          RemapAccount(cfg, node, key, shard);
      }
    }
  }

  lemma DoneSoFar(events: seq<Event>, acts: seq<Action>)
    ensures events + DoAll(acts[..0]) == events && acts[..|acts|] == acts
  {
  }

  lemma DoneNext(events: seq<Event>, acts: seq<Action>, i: nat)
    requires i < |acts|
    ensures events + DoAll(acts[..i]) + [Do(acts[i])] == events + DoAll(acts[..i + 1])
  {
  }

  method StartReplica(cfg: ChainConfig) returns (node: BlockChain)
    ensures fresh(node) && fresh(node.disk) && fresh(node.Txpool) && fresh(node.Txpool.Arrays())
    ensures Ready(cfg, node) && Up(StateOf(node)) == Run(cfg, [Do(Start)])
  {
    hide Started;
    StartsOnGenesis(cfg);
    assert [] + [Do(Start)] == [Do(Start)];
    EmptyRun(cfg);
    OneMore(cfg, [], Do(Start));
    var disk := new Disk(BLANK);
    node := new BlockChain(cfg, disk);
  }

  lemma StandingOpens(cfg: ChainConfig, m: Machine, b: Block)
    requires StandsOn(cfg, m, b)
    ensures m.node.chain.Opens(b.header.stateRoot)
  {
  }

  /** The leader's part of a round. */
  method LeaderTurn(c: ChainConfig, leader: BlockChain, r: Round, ghost events: seq<Event>)
    requires Ready(c, leader) && Up(StateOf(leader)) == Run(c, events)
    requires Local(r.leaderActs) && Run(c, events + DoAll(r.leaderActs) + [Do(Mine(r.now))]).Up?
    modifies leader, leader.disk, leader.Txpool, leader.Txpool.TxQueue.arr
    ensures Ready(c, leader)
    ensures Up(StateOf(leader)) == Run(c, events + DoAll(r.leaderActs) + [Do(Mine(r.now))])
    ensures fresh(leader.Txpool.Arrays() - old(leader.Txpool.Arrays()))
  {
    hide Local, Run, Mined, LaidOut, Flatten, ContentsOf, Slice.Contents, DoAll;
    ghost var acted := events + DoAll(r.leaderActs);
    PerformAll(c, leader, r.leaderActs, events);
    OneMore(c, acted, Do(Mine(r.now)));
    DoIsAct(c, Run(c, acted), Mine(r.now));
    MineBlock(c, leader, r.now);
  }

  /** The follower's part. The root it prints is what it executes the block to. */
  method FollowerTurn(
    d: ChainConfig, follower: BlockChain, r: Round, b: Block, ghost events: seq<Event>, ghost last: Block)
    returns (printed: Option<StateRoot>)
    requires Ready(d, follower) && Up(StateOf(follower)) == Run(d, events)
    requires Local(r.followerActs)
    requires StandsOn(d, Run(d, events + DoAll(r.followerActs)), last)
    requires AllSurvive(d, last.header.stateRoot.content, b.body)
    requires PassesIsValidBlock(last, b) && RightHeight(last, b) && Foreign(d, b)
    modifies follower, follower.disk, follower.Txpool, follower.Txpool.TxQueue.arr
    ensures Ready(d, follower)
    ensures Up(StateOf(follower)) == Run(d, events + DoAll(r.followerActs) + [Do(Receive(b))])
    ensures fresh(follower.Txpool.Arrays() - old(follower.Txpool.Arrays()))
    ensures printed == Some(RootAfter(d, last, b.body))
  {
    hide Local, Run, Added, RootAfter, LaidOut, Flatten, ContentsOf, Slice.Contents, DoAll;
    ghost var acted := events + DoAll(r.followerActs);
    PerformAll(d, follower, r.followerActs, events);
    StandingOpens(d, Up(StateOf(follower)), last);
    OneMore(d, acted, Do(Receive(b)));
    DoIsAct(d, Run(d, acted), Receive(b));
    printed := ReceiveBlock(d, follower, b);
  }

  /** The leader has run the events, which stored the chain. */
  ghost predicate Leads(
    c: ChainConfig, d: ChainConfig, leader: BlockChain, events: seq<Event>, chain: seq<Block>)
    reads leader, leader.disk, leader.AllStateMapTx.Values, leader.Txpool, leader.Txpool.Arrays()
  {
    Ready(c, leader) && Up(StateOf(leader)) == Run(c, events) &&
    chain == ChainOf(c, events) && Followable(d, chain) && StandsOn(c, Run(c, events), chain[|chain| - 1])
  }

  method PlayLeader(
    c: ChainConfig, ghost d: ChainConfig, leader: BlockChain, r: Round, ghost events: seq<Event>,
    ghost chain: seq<Block>)
    returns (b: Block)
    requires Leads(c, d, leader, events, chain) && SameShard(c, d) && d.nodeID != 0 && Local(r.leaderActs)
    requires Run(c, events + DoAll(r.leaderActs) + [Do(Mine(r.now))]).Up?
    modifies leader, leader.disk, leader.Txpool, leader.Txpool.Arrays()
    ensures Leads(c, d, leader, events + DoAll(r.leaderActs) + [Do(Mine(r.now))], chain + [b])
    ensures forall a | a in leader.Txpool.Arrays() :: a in old(leader.Txpool.Arrays()) || fresh(a)
  {
    ghost var made := LeaderRound(c, d, events, chain, r);
    hide Local, Run, ChainOf, Followable, LaidOut, Flatten, ContentsOf, ApplyWrites;
    hide Sound, Startable, BlockChain.Valid;
    LeaderTurn(c, leader, r, events);
    b := leader.CurrentBlock;
  }

  /** The leader plays all rounds; chain is the list of blocks it hands to the others. */
  method Lead(c: ChainConfig, rounds: seq<Round>, ghost d: ChainConfig)
    returns (leader: BlockChain, chain: seq<Block>)
    requires SameShard(c, d) && d.nodeID != 0 && AllLocal(rounds) && LeaderStaysUp(c, rounds)
    ensures fresh(leader) && Leads(c, d, leader, LeaderEvents(rounds), chain)
  {
    leader, chain := StartLeader(c, d);
    hide Local, Leads, LeaderEvents, TxPool.Arrays;
    NoRounds(rounds, []);
    for i := 0 to |rounds|
      invariant fresh(leader) && fresh(leader.disk) && fresh(leader.Txpool) && fresh(leader.Txpool.Arrays())
      invariant Leads(c, d, leader, LeaderEvents(rounds[..i]), chain)
    {
      LeaderNext(rounds, i);
      LeaderWasUp(c, rounds, i + 1);
      var b := PlayLeader(c, d, leader, rounds[i], LeaderEvents(rounds[..i]), chain);
      chain := chain + [b];
    }
    assert rounds[..|rounds|] == rounds;
  }

  method StartLeader(c: ChainConfig, ghost d: ChainConfig) returns (leader: BlockChain, chain: seq<Block>)
    ensures fresh(leader) && fresh(leader.disk) && fresh(leader.Txpool) && fresh(leader.Txpool.Arrays())
    ensures Leads(c, d, leader, [Do(Start)], chain)
  {
    hide Run, ChainOf, Sound, Startable, BlockChain.Valid;
    StartsOnGenesis(c);
    leader := StartReplica(c);
    chain := [Genesis()];
  }

  /** The follower has run the events, which stored the chain. */
  ghost predicate Follows(d: ChainConfig, follower: BlockChain, events: seq<Event>, chain: seq<Block>)
    reads follower, follower.disk, follower.AllStateMapTx.Values, follower.Txpool, follower.Txpool.Arrays()
  {
    Ready(d, follower) && Up(StateOf(follower)) == Run(d, events) &&
    chain == ChainOf(d, events) && chain != [] && StandsOn(d, Run(d, events), chain[|chain| - 1])
  }

  method PlayFollower(
    d: ChainConfig, follower: BlockChain, r: Round, b: Block, ghost events: seq<Event>, ghost chain: seq<Block>)
    returns (printed: Option<StateRoot>)
    requires Follows(d, follower, events, chain) && HonestOnTop(d, chain[|chain| - 1], b) && Local(r.followerActs)
    modifies follower, follower.disk, follower.Txpool, follower.Txpool.Arrays()
    ensures Follows(d, follower, events + DoAll(r.followerActs) + [Do(Receive(b))], chain + [b])
    ensures forall a | a in follower.Txpool.Arrays() :: a in old(follower.Txpool.Arrays()) || fresh(a)
    ensures printed == Some(b.header.stateRoot)
  {
    FollowerRound(d, events, chain, r, b);
    hide Local, Run, ChainOf, LaidOut, Flatten, ContentsOf, ApplyWrites, Honest, AllSurvive;
    hide Sound, Startable, BlockChain.Valid, RootAfter, TxTree, Slice.Contents, DoAll;
    printed := FollowerTurn(d, follower, r, b, events, chain[|chain| - 1]);
  }

  method StartFollower(d: ChainConfig) returns (follower: BlockChain)
    ensures fresh(follower) && fresh(follower.disk) && fresh(follower.Txpool) && fresh(follower.Txpool.Arrays())
    ensures Follows(d, follower, [Do(Start)], [Genesis()])
  {
    hide Run, ChainOf, Sound, Startable, BlockChain.Valid;
    StartsOnGenesis(d);
    follower := StartReplica(d);
  }

  /** The follower plays all rounds with the blocks it is handed; printed are the roots it executes them to. */
  method Follow(d: ChainConfig, rounds: seq<Round>, chain: seq<Block>)
    returns (follower: BlockChain, printed: seq<Option<StateRoot>>)
    requires AllLocal(rounds) && |chain| == |rounds| + 1 && Followable(d, chain)
    ensures fresh(follower) && Follows(d, follower, FollowerEvents(rounds, chain), chain)
    ensures |printed| == |rounds| && forall i | 0 <= i < |rounds| :: printed[i] == Some(chain[i + 1].header.stateRoot)
  {
    follower := StartFollower(d);
    printed := [];
    ghost var added := [Genesis()];
    NoRounds(rounds, chain);
    hide Local, Follows, FollowerEvents, TxPool.Arrays, HonestOnTop;
    for i := 0 to |rounds|
      invariant fresh(follower) && fresh(follower.disk) && fresh(follower.Txpool) && fresh(follower.Txpool.Arrays())
      invariant added == chain[..i + 1]
      invariant Follows(d, follower, FollowerEvents(rounds[..i], chain), added)
      invariant |printed| == i && forall j | 0 <= j < i :: printed[j] == Some(chain[j + 1].header.stateRoot)
    {
      FollowerNext(rounds, i, chain);
      assert HonestOnTop(d, chain[i], chain[i + 1]);
      var root := PlayFollower(d, follower, rounds[i], chain[i + 1], FollowerEvents(rounds[..i], chain), added);
      added, printed := added + [chain[i + 1]], printed + [root];
    }
    assert rounds[..|rounds|] == rounds && added == chain;
  }

  /**
   * Two node objects on blank disks play all rounds: they end in the states of their runs on the same chain of one
   * block per round, and every root the follower prints is that of the block's header.
   */
  method Replicate(c: ChainConfig, d: ChainConfig, rounds: seq<Round>)
    returns (leader: BlockChain, follower: BlockChain, chain: seq<Block>, printed: seq<Option<StateRoot>>)
    requires SameShard(c, d) && d.nodeID != 0 && AllLocal(rounds) && LeaderStaysUp(c, rounds)
    ensures |chain| == |rounds| + 1
    ensures Leads(c, d, leader, LeaderEvents(rounds), chain)
    ensures Follows(d, follower, FollowerEvents(rounds, chain), chain)
    ensures leader.CurrentBlock == follower.CurrentBlock == chain[|rounds|]
    ensures ChainShape(leader.disk.State(), chain) && ChainShape(follower.disk.State(), chain)
    ensures |printed| == |rounds| && forall i | 0 <= i < |rounds| :: printed[i] == Some(chain[i + 1].header.stateRoot)
  {
    hide Leads, Follows, AllLocal, LeaderEvents, FollowerEvents, ChainShape, Run, ChainOf, Followable, RootAfter;
    hide StandsOn, SameShard;
    leader, chain := Lead(c, rounds, d);
    LeaderStands(c, d, leader, LeaderEvents(rounds), chain);
    LeaderChain(c, d, rounds);
    ghost var pool, states := leader.Txpool.Arrays(), leader.AllStateMapTx.Values;
    follower, printed := Follow(d, rounds, chain);
    assert leader.Txpool.Arrays() == pool;
    assert leader.AllStateMapTx.Values == states;
    FollowerStands(d, follower, FollowerEvents(rounds, chain), chain);
    ReplicasAgree(c, d, rounds);
  }

  lemma LeaderStands(c: ChainConfig, d: ChainConfig, leader: BlockChain, events: seq<Event>, chain: seq<Block>)
    requires Leads(c, d, leader, events, chain)
    ensures chain == ChainOf(c, events) && Followable(d, chain) && chain != []
    ensures leader.CurrentBlock == chain[|chain| - 1] && leader.disk.State() == Run(c, events).Disk()
  {
    hide Run, ChainOf, Ready, Sound, Startable;
  }

  lemma FollowerStands(d: ChainConfig, follower: BlockChain, events: seq<Event>, chain: seq<Block>)
    requires Follows(d, follower, events, chain)
    ensures chain != []
    ensures follower.CurrentBlock == chain[|chain| - 1] && follower.disk.State() == Run(d, events).Disk()
  {
    hide Run, ChainOf, Ready, Sound, Startable;
  }
}
