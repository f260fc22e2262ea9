/** All shards together: every interleaving of routed batches refines the sequential reference ledger. */
module ShardedLedger {
  import opened Wrappers
  import opened Addresses
  import opened Transactions
  import opened Ledger
  import opened LedgerLaws
  import opened ReferenceLedger

  /** A batch executed by one shard. */
  datatype Step = Step(shard: nat, batch: seq<Transaction>)

  /** The tries of all shards, and the transactions accepted so far in the order they were executed. */
  datatype System = System(shards: seq<Trie>, accepted: seq<Transaction>)

  predicate TableInRange(cfg: ChainConfig) {
    forall addr | addr in cfg.mapInfo :: cfg.mapInfo[addr] < cfg.shardNum
  }

  function ConfigOf(cfg: ChainConfig, shard: nat): (c: ChainConfig) {
    cfg.(shardID := shard)
  }

  /** A plain transfer sent to the shard its sender belongs to. */
  predicate Routed(cfg: ChainConfig, shard: nat, tx: Transaction) {
    RealTx(tx) && !tx.relayed && !tx.hasBroker && tx.value >= 0 && Home(cfg, tx.sender) == shard < cfg.shardNum
  }

  predicate RoutedBatch(cfg: ChainConfig, shard: nat, batch: seq<Transaction>) {
    shard < cfg.shardNum && forall i | 0 <= i < |batch| :: Routed(cfg, shard, batch[i])
  }

  predicate RoutedSteps(cfg: ChainConfig, steps: seq<Step>) {
    forall i | 0 <= i < |steps| :: RoutedBatch(cfg, steps[i].shard, steps[i].batch)
  }

  function AfterBatch(cfg: ChainConfig, sys: System, shard: nat, batch: seq<Transaction>): (r: System)
    requires |sys.shards| == cfg.shardNum && RoutedBatch(cfg, shard, batch)
    ensures |r.shards| == cfg.shardNum
  {
    var c, e := ConfigOf(cfg, shard), Exec(sys.shards[shard], 0, map[]);
    System(sys.shards[shard := ApplyTxs(c, e, batch).st], sys.accepted + Accepted(c, e, batch))
  }

  /** All shards start empty; the order of steps is an arbitrary interleaving. */
  function Run(cfg: ChainConfig, steps: seq<Step>): (sys: System)
    requires RoutedSteps(cfg, steps)
    ensures |sys.shards| == cfg.shardNum
  {
    if steps == [] then System(seq(cfg.shardNum, _ => map[]), [])
    else
      var n := |steps| - 1;
      AfterBatch(cfg, Run(cfg, steps[..n]), steps[n].shard, steps[n].batch)
  }

  // ----- What an account owns across all shards -----

  /** The virtual balances of addr on one shard, for sender shards below n. */
  function VirtualOn(st: Trie, addr: Address, n: nat): (sum: int) {
    if n == 0 then 0 else VirtualOn(st, addr, n - 1) + Balance(st, AddrVirtualAccount(addr, n - 1))
  }

  /** The virtual balances of addr on the shards below m other than its home. */
  function Elsewhere(cfg: ChainConfig, shards: seq<Trie>, addr: Address, m: nat): (sum: int)
    requires RealAddress(addr) && m <= |shards|
  {
    if m == 0 then 0
    else
      Elsewhere(cfg, shards, addr, m - 1)
        + if m - 1 == Home(cfg, addr) then 0 else VirtualOn(shards[m - 1], addr, cfg.shardNum)
  }

  /** The home balance plus all virtual balances in other shards. */
  function Assets(cfg: ChainConfig, shards: seq<Trie>, addr: Address): (sum: int)
    requires RealAddress(addr) && TableInRange(cfg) && |shards| == cfg.shardNum
  {
    Balance(shards[Home(cfg, addr)], addr) + Elsewhere(cfg, shards, addr, |shards|)
  }

  // ----- One transaction -----

  function AfterTx(cfg: ChainConfig, sys: System, shard: nat, index: nat, tx: Transaction): (r: System)
    requires |sys.shards| == cfg.shardNum && Routed(cfg, shard, tx)
    ensures |r.shards| == cfg.shardNum
  {
    var c, e := ConfigOf(cfg, shard), Exec(sys.shards[shard], 0, map[]);
    System(sys.shards[shard := ApplyTx(c, e, index, tx).st],
           if Rejects(c, e.st, tx) then sys.accepted else sys.accepted + [tx])
  }

  lemma VirtualDelta(cfg: ChainConfig, shard: nat, tx: Transaction, addr: Address, k: nat)
    requires Routed(cfg, shard, tx) && RealAddress(addr)
    ensures Delta(ConfigOf(cfg, shard), tx, AddrVirtualAccount(addr, k))
         == if tx.recipient == addr && Home(cfg, addr) != shard && Addr2Shard(tx.sender, cfg.shardNum) == k
            then tx.value else 0
  {
    VirtualAccountInjective(tx.recipient, Addr2Shard(tx.sender, cfg.shardNum), addr, k);
  }

  lemma {:induction false} VirtualOnStep(
    cfg: ChainConfig, e: Exec, shard: nat, index: nat, tx: Transaction, addr: Address, n: nat)
    requires Routed(cfg, shard, tx) && RealAddress(addr) && !Rejects(ConfigOf(cfg, shard), e.st, tx)
    ensures VirtualOn(ApplyTx(ConfigOf(cfg, shard), e, index, tx).st, addr, n)
         == VirtualOn(e.st, addr, n)
          + if tx.recipient == addr && Home(cfg, addr) != shard && Addr2Shard(tx.sender, cfg.shardNum) < n
            then tx.value else 0
  {
    if n > 0 {
      VirtualOnStep(cfg, e, shard, index, tx, addr, n - 1);
      ApplyTxDelta(ConfigOf(cfg, shard), e, index, tx, AddrVirtualAccount(addr, n - 1));
      VirtualDelta(cfg, shard, tx, addr, n - 1);
    }
  }

  lemma {:induction false} ElsewhereStep(
    cfg: ChainConfig, shards: seq<Trie>, shard: nat, st: Trie, addr: Address, m: nat)
    requires RealAddress(addr) && m <= |shards| && shard < |shards|
    ensures Elsewhere(cfg, shards[shard := st], addr, m)
         == Elsewhere(cfg, shards, addr, m)
          + if shard < m && shard != Home(cfg, addr)
            then VirtualOn(st, addr, cfg.shardNum) - VirtualOn(shards[shard], addr, cfg.shardNum) else 0
  {
    if m > 0 {
      ElsewhereStep(cfg, shards, shard, st, addr, m - 1);
    }
  }

  /** An accepted transaction moves assets exactly as the reference ledger moves balances. */
  lemma AssetsStep(cfg: ChainConfig, sys: System, shard: nat, index: nat, tx: Transaction, addr: Address)
    requires TableInRange(cfg) && |sys.shards| == cfg.shardNum && Routed(cfg, shard, tx) && RealAddress(addr)
    requires !Rejects(ConfigOf(cfg, shard), sys.shards[shard], tx)
    ensures Assets(cfg, AfterTx(cfg, sys, shard, index, tx).shards, addr)
         == Assets(cfg, sys.shards, addr) + RefDelta(tx, addr)
  {
    var c, e := ConfigOf(cfg, shard), Exec(sys.shards[shard], 0, map[]);
    var after := ApplyTx(c, e, index, tx).st;
    ElsewhereStep(cfg, sys.shards, shard, after, addr, |sys.shards|);
    VirtualOnStep(cfg, e, shard, index, tx, addr, cfg.shardNum);
    ApplyTxDelta(c, e, index, tx, addr);
  }

  // ----- The invariant of all runs -----

  ghost predicate Refines(cfg: ChainConfig, sys: System)
    requires TableInRange(cfg)
  {
    |sys.shards| == cfg.shardNum && AllReal(sys.accepted) &&
    (forall s | 0 <= s < |sys.shards| :: NonNegative(sys.shards[s])) &&
    RefAccepted(sys.accepted) == sys.accepted &&
    forall addr | RealAddress(addr) :: Assets(cfg, sys.shards, addr) == RefBalance(RefRun(sys.accepted), addr)
  }

  lemma {:induction false} VirtualOnNonNegative(st: Trie, addr: Address, n: nat)
    requires NonNegative(st) && |addr| == ADDRESS_LENGTH
    ensures VirtualOn(st, addr, n) >= 0
  {
    if n > 0 {
      VirtualOnNonNegative(st, addr, n - 1);
    }
  }

  lemma {:induction false} ElsewhereNonNegative(cfg: ChainConfig, shards: seq<Trie>, addr: Address, m: nat)
    requires RealAddress(addr) && m <= |shards| && forall s | 0 <= s < |shards| :: NonNegative(shards[s])
    ensures Elsewhere(cfg, shards, addr, m) >= 0
  {
    if m > 0 {
      ElsewhereNonNegative(cfg, shards, addr, m - 1);
      VirtualOnNonNegative(shards[m - 1], addr, cfg.shardNum);
    }
  }

  /**
   * In any state a run reaches, the reference ledger never rejects what the shard accepts; and it accepts what the
   * shard rejects exactly when the missing funds are held by the sender's virtual accounts in other shards.
   */
  lemma RejectionsDifferExactly(cfg: ChainConfig, sys: System, shard: nat, tx: Transaction)
    requires TableInRange(cfg) && Refines(cfg, sys) && Routed(cfg, shard, tx)
    ensures var rejected := Rejects(ConfigOf(cfg, shard), sys.shards[shard], tx);
            var ref := RefAccepts(RefRun(sys.accepted), tx);
            (!rejected ==> ref) &&
            (rejected && ref <==>
              Balance(sys.shards[shard], tx.sender) < tx.value
                <= Balance(sys.shards[shard], tx.sender) + Elsewhere(cfg, sys.shards, tx.sender, |sys.shards|))
  {
    ElsewhereNonNegative(cfg, sys.shards, tx.sender, |sys.shards|);
    assert Assets(cfg, sys.shards, tx.sender) == RefBalance(RefRun(sys.accepted), tx.sender);
  }

  lemma AcceptedKeepsRefinement(cfg: ChainConfig, sys: System, shard: nat, index: nat, tx: Transaction)
    requires TableInRange(cfg) && Refines(cfg, sys) && Routed(cfg, shard, tx)
    requires !Rejects(ConfigOf(cfg, shard), sys.shards[shard], tx)
    ensures Refines(cfg, AfterTx(cfg, sys, shard, index, tx))
  {
    hide Processable, Write, Credit, CreditKey, VirtualOn, Elsewhere, RefStep, NonNegative, Rejects;
    var c, e := ConfigOf(cfg, shard), Exec(sys.shards[shard], 0, map[]);
    var after := AfterTx(cfg, sys, shard, index, tx);
    NonNegativeStep(c, e, index, tx);
    RejectionsDifferExactly(cfg, sys, shard, tx);
    assert after.accepted[..|sys.accepted|] == sys.accepted;
    forall addr | RealAddress(addr)
      ensures Assets(cfg, after.shards, addr) == RefBalance(RefRun(after.accepted), addr)
    {
      AssetsStep(cfg, sys, shard, index, tx, addr);
      RefStepDelta(RefRun(sys.accepted), tx, addr);
    }
  }

  lemma RejectedChangesNothing(cfg: ChainConfig, sys: System, shard: nat, index: nat, tx: Transaction)
    requires |sys.shards| == cfg.shardNum && Routed(cfg, shard, tx)
    requires Rejects(ConfigOf(cfg, shard), sys.shards[shard], tx)
    ensures AfterTx(cfg, sys, shard, index, tx) == sys
  {
    assert sys.shards[shard := sys.shards[shard]] == sys.shards;
  }

  lemma TxKeepsRefinement(cfg: ChainConfig, sys: System, shard: nat, index: nat, tx: Transaction)
    requires TableInRange(cfg) && Refines(cfg, sys) && Routed(cfg, shard, tx)
    ensures Refines(cfg, AfterTx(cfg, sys, shard, index, tx))
  {
    assert |sys.shards| == cfg.shardNum;
    hide Refines;
    if Rejects(ConfigOf(cfg, shard), sys.shards[shard], tx) {
      RejectedChangesNothing(cfg, sys, shard, index, tx);
    } else {
      AcceptedKeepsRefinement(cfg, sys, shard, index, tx);
    }
  }

  lemma SnocAppend(a: seq<Transaction>, b: seq<Transaction>)
    requires b != []
    ensures a + b[..|b| - 1] + [b[|b| - 1]] == a + b
  {
  }

  lemma RoutedFront(cfg: ChainConfig, shard: nat, batch: seq<Transaction>)
    requires RoutedBatch(cfg, shard, batch) && batch != []
    ensures RoutedBatch(cfg, shard, batch[..|batch| - 1]) && Routed(cfg, shard, batch[|batch| - 1])
  {
  }

  lemma NoBatch(cfg: ChainConfig, sys: System, shard: nat)
    requires |sys.shards| == cfg.shardNum && shard < cfg.shardNum
    ensures AfterBatch(cfg, sys, shard, []) == sys
  {
    assert sys.shards[shard := sys.shards[shard]] == sys.shards && sys.accepted + [] == sys.accepted;
  }

  lemma AfterBatchIsAfterTx(cfg: ChainConfig, sys: System, shard: nat, batch: seq<Transaction>)
    requires |sys.shards| == cfg.shardNum && RoutedBatch(cfg, shard, batch) && batch != []
    ensures var n := |batch| - 1;
            AfterBatch(cfg, sys, shard, batch)
              == AfterTx(cfg, AfterBatch(cfg, sys, shard, batch[..n]), shard, n, batch[n])
  {
    var n := |batch| - 1;
    var c, e := ConfigOf(cfg, shard), Exec(sys.shards[shard], 0, map[]);
    var before := AfterBatch(cfg, sys, shard, batch[..n]);
    var st := ApplyTxs(c, e, batch).st;
    assert before.shards[shard := st] == sys.shards[shard := st];
    assert sys.accepted + (Accepted(c, e, batch[..n]) + [batch[n]]) == before.accepted + [batch[n]];
  }

  lemma {:induction false} BatchKeepsRefinement(cfg: ChainConfig, sys: System, shard: nat, batch: seq<Transaction>)
    requires TableInRange(cfg) && Refines(cfg, sys) && RoutedBatch(cfg, shard, batch)
    ensures Refines(cfg, AfterBatch(cfg, sys, shard, batch))
  {
    assert |sys.shards| == cfg.shardNum;
    hide AfterTx, AfterBatch, Refines, Routed;
    if batch == [] {
      NoBatch(cfg, sys, shard);
    } else {
      var n := |batch| - 1;
      BatchKeepsRefinement(cfg, sys, shard, batch[..n]);
      TxKeepsRefinement(cfg, AfterBatch(cfg, sys, shard, batch[..n]), shard, n, batch[n]);
      AfterBatchIsAfterTx(cfg, sys, shard, batch);
    }
  }

  lemma {:induction false} NothingVirtual(addr: Address, n: nat)
    requires |addr| == ADDRESS_LENGTH
    ensures VirtualOn(map[], addr, n) == 0
  {
    if n > 0 {
      NothingVirtual(addr, n - 1);
    }
  }

  lemma {:induction false} NothingElsewhere(cfg: ChainConfig, shards: seq<Trie>, addr: Address, m: nat)
    requires RealAddress(addr) && m <= |shards| && forall s | 0 <= s < |shards| :: shards[s] == map[]
    ensures Elsewhere(cfg, shards, addr, m) == 0
  {
    if m > 0 {
      NothingElsewhere(cfg, shards, addr, m - 1);
      NothingVirtual(addr, cfg.shardNum);
    }
  }

  /**
   * Sharded refinement. After every interleaving of routed batches, each account's home balance plus its virtual
   * balances in the other shards equals its balance in the reference ledger run on the accepted transactions, and
   * the reference ledger rejects none of them.
   */
  lemma {:induction false} ShardingRefinesReference(cfg: ChainConfig, steps: seq<Step>)
    requires TableInRange(cfg) && RoutedSteps(cfg, steps)
    ensures Refines(cfg, Run(cfg, steps))
  {
    if steps == [] {
      var sys := Run(cfg, steps);
      forall addr | RealAddress(addr) ensures Assets(cfg, sys.shards, addr) == RefBalance(RefRun([]), addr) {
        NothingElsewhere(cfg, sys.shards, addr, |sys.shards|);
      }
    } else {
      var n := |steps| - 1;
      ShardingRefinesReference(cfg, steps[..n]);
      BatchKeepsRefinement(cfg, Run(cfg, steps[..n]), steps[n].shard, steps[n].batch);
    }
  }

  // ----- One shard: the rejections coincide too -----

  function AllTxs(steps: seq<Step>): (txs: seq<Transaction>) {
    if steps == [] then [] else AllTxs(steps[..|steps| - 1]) + steps[|steps| - 1].batch
  }

  /** The only shard agrees with the reference ledger run on every submitted transaction, rejected ones included. */
  ghost predicate SingleAgrees(sys: System, all: seq<Transaction>) {
    |sys.shards| == 1 && sys.accepted == RefAccepted(all) &&
    forall addr | RealAddress(addr) :: Balance(sys.shards[0], addr) == RefBalance(RefRun(all), addr)
  }

  lemma SingleStep(cfg: ChainConfig, sys: System, all: seq<Transaction>, index: nat, tx: Transaction)
    requires cfg.shardNum == 1 && TableInRange(cfg) && SingleAgrees(sys, all) && Routed(cfg, 0, tx)
    ensures SingleAgrees(AfterTx(cfg, sys, 0, index, tx), all + [tx])
  {
    var c, e := ConfigOf(cfg, 0), Exec(sys.shards[0], 0, map[]);
    assert (all + [tx])[..|all|] == all;
    assert Balance(e.st, tx.sender) == RefBalance(RefRun(all), tx.sender);
    forall addr | RealAddress(addr)
      ensures Balance(ApplyTx(c, e, index, tx).st, addr) == RefBalance(RefRun(all + [tx]), addr)
    {
      ApplyTxDelta(c, e, index, tx, addr);
      RefStepDelta(RefRun(all), tx, addr);
    }
  }

  lemma {:induction false} SingleBatch(
    cfg: ChainConfig, sys: System, all: seq<Transaction>, batch: seq<Transaction>)
    requires cfg.shardNum == 1 && TableInRange(cfg) && SingleAgrees(sys, all) && RoutedBatch(cfg, 0, batch)
    ensures SingleAgrees(AfterBatch(cfg, sys, 0, batch), all + batch)
  {
    assert |sys.shards| == cfg.shardNum;
    if batch == [] {
      NoBatch(cfg, sys, 0);
      assert all + batch == all;
    } else {
      hide *;
      var n := |batch| - 1;
      SnocAppend(all, batch);
      RoutedFront(cfg, 0, batch);
      SingleBatch(cfg, sys, all, batch[..n]);
      SingleStep(cfg, AfterBatch(cfg, sys, 0, batch[..n]), all + batch[..n], n, batch[n]);
      AfterBatchIsAfterTx(cfg, sys, 0, batch);
    }
  }

  /** With one shard, exactly the reference ledger's transactions are accepted and all balances are the same. */
  lemma {:induction false} SingleShardCoincides(cfg: ChainConfig, steps: seq<Step>)
    requires cfg.shardNum == 1 && TableInRange(cfg) && RoutedSteps(cfg, steps)
    ensures SingleAgrees(Run(cfg, steps), AllTxs(steps))
  {
    if steps != [] {
      var n := |steps| - 1;
      SingleShardCoincides(cfg, steps[..n]);
      SingleBatch(cfg, Run(cfg, steps[..n]), AllTxs(steps[..n]), steps[n].batch);
    }
  }

  // ----- Two shards: they need not -----

  function PlainTransfer(sender: Address, recipient: Address, value: int): (tx: Transaction) {
    Transaction(sender, recipient, 0, value, [], 0, false, false, false, "", "", [])
  }

  lemma OneTxBatch(cfg: ChainConfig, sys: System, shard: nat, tx: Transaction)
    requires |sys.shards| == cfg.shardNum && Routed(cfg, shard, tx)
    ensures AfterBatch(cfg, sys, shard, [tx]) == AfterTx(cfg, sys, shard, 0, tx)
  {
    AfterBatchIsAfterTx(cfg, sys, shard, [tx]);
    NoBatch(cfg, sys, shard);
    assert [tx][..0] == [];
  }

  lemma ReferenceAcceptsBoth(pay: Transaction, spend: Transaction)
    requires RefAccepts(map[], pay) && RefAccepts(RefStep(map[], pay), spend)
    ensures RefAccepted([pay, spend]) == [pay, spend]
  {
    assert [pay, spend][..1] == [pay] && [pay][..0] == [];
    assert RefAccepted([pay]) == [pay] && RefRun([pay]) == RefStep(map[], pay);
  }

  /** The second of two transfers is rejected when the first only filled its sender's virtual account elsewhere. */
  lemma SecondStepRejected(cfg: ChainConfig, pay: Transaction, spend: Transaction)
    requires cfg.shardNum > 1 && Routed(cfg, 0, pay) && Routed(cfg, 1, spend)
    requires pay.value <= INIT_BALANCE < spend.value
    ensures Run(cfg, [Step(0, [pay]), Step(1, [spend])]).accepted == [pay]
  {
    var start, steps := Run(cfg, []), [Step(0, [pay]), Step(1, [spend])];
    assert steps[..1] == [Step(0, [pay])] && steps[..1][..0] == [];
    OneTxBatch(cfg, start, 0, pay);
    FirstAccepted(cfg, start, pay);
    hide ApplyTx, Credit, Debit, Rejects, ApplyTxs, Accepted, Processable, AfterTx, AfterBatch;
    var middle := Run(cfg, steps[..1]);
    assert middle == AfterTx(cfg, start, 0, 0, pay);
    OneTxBatch(cfg, middle, 1, spend);
    SecondRejected(cfg, middle, spend);
  }

  lemma FirstAccepted(cfg: ChainConfig, start: System, pay: Transaction)
    requires cfg.shardNum > 1 && start == System(seq(cfg.shardNum, _ => map[]), [])
    requires Routed(cfg, 0, pay) && pay.value <= INIT_BALANCE
    ensures AfterTx(cfg, start, 0, 0, pay).accepted == [pay] && AfterTx(cfg, start, 0, 0, pay).shards[1] == map[]
  {
  }

  lemma SecondRejected(cfg: ChainConfig, middle: System, spend: Transaction)
    requires cfg.shardNum > 1 && |middle.shards| == cfg.shardNum && middle.shards[1] == map[]
    requires Routed(cfg, 1, spend) && INIT_BALANCE < spend.value
    ensures AfterTx(cfg, middle, 1, 0, spend).accepted == middle.accepted
  {
  }

  lemma {:induction false} ZerosParse(s: string)
    requires s != "" && forall i | 0 <= i < |s| :: s[i] == '0'
    ensures ParseHex(s) == Some(0)
  {
    if |s| > 1 {
      ZerosParse(s[..|s| - 1]);
    }
  }

  /** Forty characters, all zero but the last digit. */
  function ZerosThen(last: char): (addr: Address)
    ensures |addr| == ADDRESS_LENGTH
  {
    seq(ADDRESS_LENGTH - 1, _ => '0') + [last]
  }

  lemma ZerosThenShard(last: char, shardNum: Positive)
    requires HexValue(last).Some?
    ensures RealAddress(ZerosThen(last)) && Addr2Shard(ZerosThen(last), shardNum) == HexValue(last).value % shardNum
  {
    var digits := ZerosThen(last)[ADDRESS_LENGTH - HASHED_DIGITS..];
    assert digits[|digits| - 1] == last;
    ZerosParse(digits[..|digits| - 1]);
  }

  /**
   * With four shards and any account table that does not list them, two accounts in different shards: the first sends
   * its whole balance to the second, which then cannot spend it, because it sits in a virtual account of the first
   * shard. The reference ledger accepts both transfers.
   */
  lemma TwoShardsRejectMore(table: map<Address, nat>)
    requires ZerosThen('0') !in table && ZerosThen('1') !in table && forall addr | addr in table :: table[addr] < 4
    ensures var a, b := ZerosThen('0'), ZerosThen('1');
            var cfg := ChainConfig(0, 0, 1, 4, table);
            var pay, spend := PlainTransfer(a, b, INIT_BALANCE), PlainTransfer(b, a, 2 * INIT_BALANCE);
            var steps := [Step(0, [pay]), Step(1, [spend])];
            TableInRange(cfg) && RoutedSteps(cfg, steps) &&
            RefAccepted([pay, spend]) == [pay, spend] && Run(cfg, steps).accepted == [pay]
  {
    var a, b := ZerosThen('0'), ZerosThen('1');
    ZerosThenShard('0', 4);
    ZerosThenShard('1', 4);
    assert a[|a| - 1] == '0' != '1' == b[|b| - 1];
    var cfg := ChainConfig(0, 0, 1, 4, table);
    var pay, spend := PlainTransfer(a, b, INIT_BALANCE), PlainTransfer(b, a, 2 * INIT_BALANCE);
    hide Addr2Shard, Shardable, ZerosThen;
    assert Routed(cfg, 0, pay) && Routed(cfg, 1, spend);
    ReferenceAcceptsBoth(pay, spend);
    hide RefAccepted, Run;
    SecondStepRejected(cfg, pay, spend);
  }
}
