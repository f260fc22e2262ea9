/** The shards as running nodes: what their chains hold together refines the reference ledger. */
module ShardedNodes {
  import opened Transactions
  import opened Ledger
  import opened LedgerLaws
  import opened Blocks
  import opened NodeStates
  import opened RunLaws
  import Shards = ShardedLedger

  type Step = Shards.Step

  // ----- The batches of one shard -----

  function BatchesOf(steps: seq<Step>, shard: nat): (batches: seq<seq<Transaction>>) {
    if steps == [] then []
    else
      var n := |steps| - 1;
      var before := BatchesOf(steps[..n], shard);
      if steps[n].shard == shard then before + [steps[n].batch] else before
  }

  lemma {:induction false} BatchesAreReal(cfg: ChainConfig, steps: seq<Step>, shard: nat)
    requires Shards.RoutedSteps(cfg, steps)
    ensures forall i | 0 <= i < |BatchesOf(steps, shard)| :: AllReal(BatchesOf(steps, shard)[i])
  {
    if steps != [] {
      BatchesAreReal(cfg, steps[..|steps| - 1], shard);
    }
  }

  /** In every interleaving each shard has exactly the history of its own batches. */
  lemma {:induction false} ShardIsHistory(cfg: ChainConfig, steps: seq<Step>, shard: nat)
    requires Shards.RoutedSteps(cfg, steps) && shard < cfg.shardNum
    ensures forall i | 0 <= i < |BatchesOf(steps, shard)| :: AllReal(BatchesOf(steps, shard)[i])
    ensures Shards.Run(cfg, steps).shards[shard]
         == RunBatches(Shards.ConfigOf(cfg, shard), BatchesOf(steps, shard)).st
  {
    BatchesAreReal(cfg, steps, shard);
    if steps != [] {
      var n := |steps| - 1;
      ShardIsHistory(cfg, steps[..n], shard);
      ShardStep(cfg, steps, shard);
      hide BatchesOf, RunBatches, Shards.Run, Shards.RoutedSteps, AllReal;
      if steps[n].shard == shard {
        OneMoreBatch(Shards.ConfigOf(cfg, shard), BatchesOf(steps[..n], shard), steps[n].batch);
      }
    }
  }

  lemma ShardStep(cfg: ChainConfig, steps: seq<Step>, shard: nat)
    requires Shards.RoutedSteps(cfg, steps) && shard < cfg.shardNum && steps != []
    ensures var n := |steps| - 1;
            var before := Shards.Run(cfg, steps[..n]).shards[shard];
            if steps[n].shard == shard then
              Shards.Run(cfg, steps).shards[shard]
                == Execute(Shards.ConfigOf(cfg, shard), before, steps[n].batch) &&
              BatchesOf(steps, shard) == BatchesOf(steps[..n], shard) + [steps[n].batch]
            else
              Shards.Run(cfg, steps).shards[shard] == before &&
              BatchesOf(steps, shard) == BatchesOf(steps[..n], shard)
  {
    hide ApplyTxs, Accepted, AllReal;
  }

  lemma OneMoreBatch(c: ChainConfig, batches: seq<seq<Transaction>>, batch: seq<Transaction>)
    requires forall i | 0 <= i < |batches| :: AllReal(batches[i])
    requires forall i | 0 <= i < |batches + [batch]| :: AllReal((batches + [batch])[i])
    ensures RunBatches(c, batches + [batch]).st == Execute(c, RunBatches(c, batches).st, batch)
  {
    hide ApplyTxs, Accepted, AllReal;
    assert (batches + [batch])[..|batches|] == batches;
  }

  // ----- One node a shard -----

  /** A run of one of the shard's nodes: it has started, and its blocks carry the roots of executing them. */
  predicate HonestRun(node: ChainConfig, events: seq<Event>) {
    ChainOf(node, events) != [] && forall i | 0 <= i < |events| :: HonestRoot(node, Run(node, events[..i]), events[i])
  }

  /** One run for each shard, of any of its nodes; steps is an order in which the bodies of their blocks may follow. */
  predicate Plays(cfg: ChainConfig, nodes: seq<ChainConfig>, runs: seq<seq<Event>>, steps: seq<Step>) {
    |nodes| == |runs| == cfg.shardNum &&
    forall s | 0 <= s < cfg.shardNum ::
      SameShard(nodes[s], Shards.ConfigOf(cfg, s)) && HonestRun(nodes[s], runs[s]) &&
      Bodies(ChainOf(nodes[s], runs[s])) == BatchesOf(steps, s)
  }

  /** The state of the last block of the run's chain. */
  function LastState(node: ChainConfig, events: seq<Event>): (st: Trie)
    requires ChainOf(node, events) != []
  {
    var chain := ChainOf(node, events);
    chain[|chain| - 1].header.stateRoot.content
  }

  lemma HonestAlike(c: ChainConfig, d: ChainConfig, parent: Block, b: Block)
    requires SameShard(c, d)
    ensures Honest(c, parent, b) <==> Honest(d, parent, b)
  {
    var e := Exec(parent.header.stateRoot.content, 0, map[]);
    ReplicasExecuteAlike(c, d, e, e, b.body);
  }

  /** A node's last state is that of its shard in the interleaving, and the running node is in it. */
  lemma NodeShowsShard(
    cfg: ChainConfig, shard: nat, node: ChainConfig, events: seq<Event>, steps: seq<Step>)
    requires Shards.RoutedSteps(cfg, steps) && shard < cfg.shardNum && SameShard(node, Shards.ConfigOf(cfg, shard))
    requires HonestRun(node, events) && Bodies(ChainOf(node, events)) == BatchesOf(steps, shard)
    ensures LastState(node, events) == Shards.Run(cfg, steps).shards[shard]
    ensures var m := Run(node, events);
            m.Up? ==> m.node.chain.current.header.stateRoot.content == LastState(node, events)
  {
    hide HonestRoot, Run, ChainOf, Honest, AllReal, BatchesOf, Shards.Run, Shards.RoutedSteps, SameShard, RunBatches;
    var chain, c := ChainOf(node, events), Shards.ConfigOf(cfg, shard);
    RunsFormChain(node, events);
    ChainIsExecuted(node, events);
    ShardIsHistory(cfg, steps, shard);
    forall i | 0 < i < |chain| ensures Honest(c, chain[i - 1], chain[i]) && AllReal(chain[i].body) {
      HonestAlike(node, c, chain[i - 1], chain[i]);
      assert Bodies(chain)[i - 1] == chain[i].body;
    }
    ChainStateIsHistory(c, chain);
  }

  /** The states of the last blocks, by shard. */
  function LastStates(
    cfg: ChainConfig, nodes: seq<ChainConfig>, runs: seq<seq<Event>>, steps: seq<Step>): (states: seq<Trie>)
    requires Plays(cfg, nodes, runs, steps)
  {
    seq(cfg.shardNum, s requires 0 <= s < cfg.shardNum => LastState(nodes[s], runs[s]))
  }

  /**
   * Sharded refinement of running nodes: whatever happens on the nodes, crashes included, once their chains hold
   * honest blocks of routed transactions, every account's home balance plus its virtual balances elsewhere, read from
   * the states of the nodes' last blocks, is its balance in the reference ledger run on the accepted transactions, for
   * every order in which the blocks of different shards may follow.
   */
  lemma NodesRefineReference(
    cfg: ChainConfig, nodes: seq<ChainConfig>, runs: seq<seq<Event>>, steps: seq<Step>)
    requires Shards.TableInRange(cfg) && Shards.RoutedSteps(cfg, steps) && Plays(cfg, nodes, runs, steps)
    ensures Shards.Refines(
              cfg, Shards.System(LastStates(cfg, nodes, runs, steps), Shards.Run(cfg, steps).accepted))
  {
    var states := LastStates(cfg, nodes, runs, steps);
    hide HonestRoot, Shards.RoutedSteps, Shards.Refines, Shards.Run, Run, ChainOf;
    forall s | 0 <= s < cfg.shardNum ensures states[s] == Shards.Run(cfg, steps).shards[s] {
      NodeShowsShard(cfg, s, nodes[s], runs[s], steps);
    }
    assert states == Shards.Run(cfg, steps).shards;
    Shards.ShardingRefinesReference(cfg, steps);
  }

  // ----- There always is such an order -----

  function StepsOf(shard: nat, batches: seq<seq<Transaction>>): (steps: seq<Step>) {
    seq(|batches|, i requires 0 <= i < |batches| => Shards.Step(shard, batches[i]))
  }

  /** The batches of one shard after those of another. */
  function InTurn(all: seq<seq<seq<Transaction>>>): (steps: seq<Step>) {
    if all == [] then [] else InTurn(all[..|all| - 1]) + StepsOf(|all| - 1, all[|all| - 1])
  }

  lemma {:induction false} BatchesOfSteps(
    before: seq<Step>, owner: nat, batches: seq<seq<Transaction>>, shard: nat)
    ensures BatchesOf(before + StepsOf(owner, batches), shard)
         == BatchesOf(before, shard) + if owner == shard then batches else []
  {
    if batches == [] {
      assert before + StepsOf(owner, batches) == before;
    } else {
      hide StepsOf;
      var n := |batches| - 1;
      BatchesOfSteps(before, owner, batches[..n], shard);
      LastStep(before, owner, batches);
    }
  }

  lemma LastStep(before: seq<Step>, owner: nat, batches: seq<seq<Transaction>>)
    requires batches != []
    ensures var n, steps := |batches| - 1, before + StepsOf(owner, batches);
            steps != [] && steps[|steps| - 1] == Shards.Step(owner, batches[n]) &&
            steps[..|steps| - 1] == before + StepsOf(owner, batches[..n]) && batches[..n] + [batches[n]] == batches
  {
  }

  lemma {:induction false} InTurnHasBatches(all: seq<seq<seq<Transaction>>>, shard: nat)
    ensures BatchesOf(InTurn(all), shard) == if shard < |all| then all[shard] else []
  {
    if all != [] {
      var n := |all| - 1;
      InTurnHasBatches(all[..n], shard);
      BatchesOfSteps(InTurn(all[..n]), n, all[n], shard);
    }
  }

  lemma {:induction false} InTurnIsRouted(cfg: ChainConfig, all: seq<seq<seq<Transaction>>>)
    requires forall s, i | 0 <= s < |all| && 0 <= i < |all[s]| :: Shards.RoutedBatch(cfg, s, all[s][i])
    ensures Shards.RoutedSteps(cfg, InTurn(all))
  {
    hide Shards.RoutedBatch;
    if all != [] {
      InTurnIsRouted(cfg, all[..|all| - 1]);
    }
  }

  /** Whatever runs the nodes had, if their blocks are honest and routed there is an order of all their bodies. */
  lemma SomeOrderPlays(cfg: ChainConfig, nodes: seq<ChainConfig>, runs: seq<seq<Event>>) returns (steps: seq<Step>)
    requires |nodes| == |runs| == cfg.shardNum
    requires forall s | 0 <= s < cfg.shardNum ::
               SameShard(nodes[s], Shards.ConfigOf(cfg, s)) && HonestRun(nodes[s], runs[s])
    requires forall s, i | 0 <= s < cfg.shardNum && 0 <= i < |Bodies(ChainOf(nodes[s], runs[s]))| ::
               Shards.RoutedBatch(cfg, s, Bodies(ChainOf(nodes[s], runs[s]))[i])
    ensures Shards.RoutedSteps(cfg, steps) && Plays(cfg, nodes, runs, steps)
  {
    hide HonestRun, Shards.RoutedBatch, Run, ChainOf;
    var all := seq(cfg.shardNum, s requires 0 <= s < cfg.shardNum => Bodies(ChainOf(nodes[s], runs[s])));
    steps := InTurn(all);
    InTurnIsRouted(cfg, all);
    forall s | 0 <= s < cfg.shardNum ensures BatchesOf(steps, s) == Bodies(ChainOf(nodes[s], runs[s])) {
      InTurnHasBatches(all, s);
    }
  }
}
