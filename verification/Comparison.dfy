/** The end of Ttestresult in test/test_result.go: the shards' accounts are compared with the reference ledger. */
module Comparison {
  import opened Addresses
  import opened Transactions
  import opened Ledger
  import opened LedgerLaws
  import opened ReferenceLedger
  import opened AccountLoading
  import opened ShardedLedger

  /** Some shard shows the reference balance; it need not be the account's home. */
  predicate Correct(shards: seq<Trie>, m: Balances, addr: Address) {
    addr in m && exists s | 0 <= s < |shards| :: Fetched(shards[s], addr).balance == m[addr]
  }

  /** The loops over the shards and over the reference accounts, in any order. */
  method CompareShards(shards: seq<Trie>, accountBalance: Balances) returns (acCorrect: set<Address>)
    ensures forall addr :: addr in acCorrect <==> Correct(shards, accountBalance, addr)
  {
    acCorrect := {};
    for sid := 0 to |shards|
      invariant forall addr :: addr in acCorrect <==> Correct(shards[..sid], accountBalance, addr)
    {
      var correct := CompareShard(shards[sid], accountBalance);
      assert shards[..sid + 1] == shards[..sid] + [shards[sid]];
      acCorrect := acCorrect + correct;
    }
    assert shards[..|shards|] == shards;
  }

  method CompareShard(st: Trie, accountBalance: Balances) returns (correct: set<Address>)
    ensures forall addr ::
              addr in correct <==> addr in accountBalance && Fetched(st, addr).balance == accountBalance[addr]
  {
    correct := {};
    var todo := accountBalance.Keys;
    while todo != {}
      invariant todo <= accountBalance.Keys
      invariant forall addr ::
                  addr in correct <==>
                  addr in accountBalance.Keys - todo && Fetched(st, addr).balance == accountBalance[addr]
      decreases todo
    {
      var key :| key in todo;
      if Fetched(st, key).balance == accountBalance[key] {
        correct := correct + {key};
      }
      todo := todo - {key};
    }
  }

  // ----- Real accounts live on their home shards only -----

  ghost predicate AtHome(cfg: ChainConfig, sys: System) {
    forall s, addr | 0 <= s < |sys.shards| && RealAddress(addr) && Home(cfg, addr) != s :: addr !in sys.shards[s]
  }

  lemma TxStaysAtHome(cfg: ChainConfig, sys: System, shard: nat, index: nat, tx: Transaction)
    requires |sys.shards| == cfg.shardNum && Routed(cfg, shard, tx) && AtHome(cfg, sys)
    ensures AtHome(cfg, AfterTx(cfg, sys, shard, index, tx))
  {
    hide ParseHex, Itoa;
  }

  lemma {:induction false} BatchStaysAtHome(cfg: ChainConfig, sys: System, shard: nat, batch: seq<Transaction>)
    requires |sys.shards| == cfg.shardNum && RoutedBatch(cfg, shard, batch) && AtHome(cfg, sys)
    ensures AtHome(cfg, AfterBatch(cfg, sys, shard, batch))
  {
    if batch == [] {
      NoBatch(cfg, sys, shard);
    } else {
      hide AtHome, AfterTx, AfterBatch, Routed;
      var n := |batch| - 1;
      BatchStaysAtHome(cfg, sys, shard, batch[..n]);
      TxStaysAtHome(cfg, AfterBatch(cfg, sys, shard, batch[..n]), shard, n, batch[n]);
      AfterBatchIsAfterTx(cfg, sys, shard, batch);
    }
  }

  lemma {:induction false} RunsStayAtHome(cfg: ChainConfig, steps: seq<Step>)
    requires RoutedSteps(cfg, steps)
    ensures AtHome(cfg, Run(cfg, steps))
  {
    if steps != [] {
      hide AtHome, AfterBatch;
      var n := |steps| - 1;
      RunsStayAtHome(cfg, steps[..n]);
      BatchStaysAtHome(cfg, Run(cfg, steps[..n]), steps[n].shard, steps[n].batch);
    }
  }

  // ----- Without rejections the order of the transactions does not matter to the reference -----

  function SumDeltas(txs: seq<Transaction>, addr: Address): (sum: int) {
    if txs == [] then 0 else SumDeltas(txs[..|txs| - 1], addr) + RefDelta(txs[|txs| - 1], addr)
  }

  lemma {:induction false} AllAcceptedSums(txs: seq<Transaction>, addr: Address)
    requires RefAccepted(txs) == txs
    ensures RefBalance(RefRun(txs), addr) == INIT_BALANCE + SumDeltas(txs, addr)
  {
    if txs != [] {
      var n := |txs| - 1;
      assert RefAccepted(txs[..n]) == txs[..n] && RefAccepts(RefRun(txs[..n]), txs[n]) by {
        assert |RefAccepted(txs[..n])| <= n;
        assert RefAccepted(txs)[..n] == txs[..n];
      }
      AllAcceptedSums(txs[..n], addr);
      RefStepDelta(RefRun(txs[..n]), txs[n], addr);
    }
  }

  lemma {:induction false} SumWithout(txs: seq<Transaction>, i: nat, addr: Address)
    requires i < |txs|
    ensures SumDeltas(txs, addr) == SumDeltas(txs[..i] + txs[i + 1..], addr) + RefDelta(txs[i], addr)
  {
    var n := |txs| - 1;
    if i == n {
      assert txs[..i] + txs[i + 1..] == txs[..n];
    } else {
      SumWithout(txs[..n], i, addr);
      var rest := txs[..i] + txs[i + 1..];
      assert rest[..|rest| - 1] == txs[..n][..i] + txs[..n][i + 1..];
    }
  }

  lemma MultisetWithout(txs: seq<Transaction>, i: nat)
    requires i < |txs|
    ensures multiset(txs[..i] + txs[i + 1..]) == multiset(txs) - multiset{txs[i]}
  {
    assert txs == txs[..i] + [txs[i]] + txs[i + 1..];
  }

  lemma {:induction false} SumsOfSameTransactions(a: seq<Transaction>, b: seq<Transaction>, addr: Address)
    requires multiset(a) == multiset(b)
    ensures SumDeltas(a, addr) == SumDeltas(b, addr)
  {
    if a == [] {
      assert |multiset(b)| == 0;
    } else {
      assert a[0] in multiset(b);
      var i :| 0 <= i < |b| && b[i] == a[0];
      hide SumDeltas, RefDelta;
      MultisetWithout(a, 0);
      MultisetWithout(b, i);
      SumWithout(a, 0, addr);
      SumWithout(b, i, addr);
      SumsOfSameTransactions(a[..0] + a[1..], b[..i] + b[i + 1..], addr);
    }
  }

  /** So the accepted transactions give the reference balance, whatever their order. */
  lemma ReferenceInAnyOrder(file: seq<Transaction>, accepted: seq<Transaction>, addr: Address)
    requires RefAccepted(file) == file && RefAccepted(accepted) == accepted && multiset(file) == multiset(accepted)
    ensures RefBalance(RefRun(file), addr) == RefBalance(RefRun(accepted), addr)
  {
    AllAcceptedSums(file, addr);
    AllAcceptedSums(accepted, addr);
    SumsOfSameTransactions(file, accepted, addr);
  }

  lemma ShownBy(cfg: ChainConfig, sys: System, addr: Address, s: nat)
    requires |sys.shards| == cfg.shardNum && s < cfg.shardNum && RealAddress(addr) && AtHome(cfg, sys)
    ensures Fetched(sys.shards[s], addr).balance
         == if s == Home(cfg, addr) then Balance(sys.shards[s], addr) else INIT_BALANCE
  {
  }

  /**
   * What the comparison says of a run in which neither the shards nor the reference reject anything, the reference
   * reading the transactions in the order of its file: an account counts as correct exactly when none of its value
   * sits in virtual accounts of other shards, or when the reference leaves it at the balance accounts start with and
   * there is another shard, which then shows just that.
   */
  lemma ComparisonPassesExactly(cfg: ChainConfig, steps: seq<Step>, file: seq<Transaction>, addr: Address)
    requires TableInRange(cfg) && RoutedSteps(cfg, steps) && RealAddress(addr) && addr in RefRun(file)
    requires RefAccepted(file) == file && multiset(file) == multiset(Run(cfg, steps).accepted)
    ensures var shards := Run(cfg, steps).shards;
            Correct(shards, RefRun(file), addr) <==>
              Elsewhere(cfg, shards, addr, |shards|) == 0 ||
              (cfg.shardNum > 1 && RefBalance(RefRun(file), addr) == INIT_BALANCE)
  {
    var sys, home := Run(cfg, steps), Home(cfg, addr);
    ShardingRefinesReference(cfg, steps);
    RunsStayAtHome(cfg, steps);
    ReferenceInAnyOrder(file, sys.accepted, addr);
    var shown := Assets(cfg, sys.shards, addr);
    assert shown == RefBalance(RefRun(file), addr);
    hide Run, RefRun, Elsewhere, RefAccepted, Refines, AtHome, Fetched, Balance, Addr2Shard, Shardable;
    forall s | 0 <= s < |sys.shards|
      ensures Fetched(sys.shards[s], addr).balance == if s == home then Balance(sys.shards[s], addr) else INIT_BALANCE
    {
      ShownBy(cfg, sys, addr, s);
    }
    assert home < |sys.shards|;
    assert cfg.shardNum > 1 ==> Fetched(sys.shards[if home == 0 then 1 else 0], addr).balance == INIT_BALANCE;
  }
}
