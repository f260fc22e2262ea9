/** What every batch keeps and changes: exact balances, conservation, the write counter, virtual accounts. */
module LedgerLaws {
  import opened Addresses
  import opened Transactions
  import opened Ledger

  // ----- Exact balances -----

  /** What an accepted transaction adds to the balance under key. */
  function Delta(cfg: ChainConfig, tx: Transaction, key: Address): (d: int)
    requires RealTx(tx)
  {
    var debited := !tx.relayed && Home(cfg, tx.sender) == cfg.shardID;
    var credited := if tx.hasBroker || Home(cfg, tx.recipient) == cfg.shardID then tx.recipient
                    else AddrVirtualAccount(tx.recipient, Addr2Shard(tx.sender, cfg.shardNum));
    (if credited == key then tx.value else 0) - (if debited && tx.sender == key then tx.value else 0)
  }

  function NetFlow(cfg: ChainConfig, txs: seq<Transaction>, key: Address): (d: int)
    requires AllReal(txs)
  {
    if txs == [] then 0 else NetFlow(cfg, txs[..|txs| - 1], key) + Delta(cfg, txs[|txs| - 1], key)
  }

  lemma ApplyTxDelta(cfg: ChainConfig, e: Exec, index: nat, tx: Transaction, key: Address)
    requires RealTx(tx)
    ensures Balance(ApplyTx(cfg, e, index, tx).st, key)
         == Balance(e.st, key) + if Rejects(cfg, e.st, tx) then 0 else Delta(cfg, tx, key)
  {
    hide ParseHex, Itoa;
    if !Rejects(cfg, e.st, tx) {
      var debited := Debit(cfg, e, index, tx).st;
      assert Balance(debited, key)
          == Balance(e.st, key) - if Debits(cfg, tx) && tx.sender == key then tx.value else 0;
    }
  }

  /** Every balance after a batch is the one before plus the net flow of the accepted transactions. */
  lemma {:induction false} ExactBalances(cfg: ChainConfig, e: Exec, txs: seq<Transaction>, key: Address)
    requires AllReal(txs)
    ensures Balance(ApplyTxs(cfg, e, txs).st, key) == Balance(e.st, key) + NetFlow(cfg, Accepted(cfg, e, txs), key)
  {
    if txs != [] {
      var n := |txs| - 1;
      var before, kept := ApplyTxs(cfg, e, txs[..n]), Accepted(cfg, e, txs[..n]);
      ExactBalances(cfg, e, txs[..n], key);
      ApplyTxDelta(cfg, before, n, txs[n], key);
      assert (kept + [txs[n]])[..|kept|] == kept;
    }
  }

  // ----- Conservation -----

  /** Sum over keys of balance minus default. */
  ghost function Excess(st: Trie, keys: set<Address>): (sum: int) {
    if keys == {} then 0 else
      var key :| key in keys;
      Balance(st, key) - Default(key) + Excess(st, keys - {key})
  }

  lemma {:induction false} ExcessPick(st: Trie, keys: set<Address>, key: Address)
    requires key in keys
    ensures Excess(st, keys) == Balance(st, key) - Default(key) + Excess(st, keys - {key})
  {
    var first :| first in keys && Excess(st, keys) == Balance(st, first) - Default(first) + Excess(st, keys - {first});
    if first != key {
      ExcessPick(st, keys - {first}, key);
      ExcessPick(st, keys - {key}, first);
      assert keys - {first} - {key} == keys - {key} - {first};
    }
  }

  lemma {:induction false} ExcessSame(st: Trie, other: Trie, keys: set<Address>)
    requires forall key | key in keys :: Balance(st, key) == Balance(other, key)
    ensures Excess(st, keys) == Excess(other, keys)
  {
    if keys != {} {
      var key :| key in keys;
      ExcessPick(st, keys, key);
      ExcessPick(other, keys, key);
      ExcessSame(st, other, keys - {key});
    }
  }

  lemma ExcessWrite(st: Trie, key: Address, index: nat, change: int)
    ensures var after := Write(st, key, index, Default(key), change);
            Excess(after, after.Keys) == Excess(st, st.Keys) + change
  {
    var after := Write(st, key, index, Default(key), change);
    ExcessPick(after, after.Keys, key);
    ExcessSame(after, st, after.Keys - {key});
    if key in st {
      assert after.Keys == st.Keys;
      ExcessPick(st, st.Keys, key);
    } else {
      assert after.Keys - {key} == st.Keys;
    }
  }

  /** The value that enters the shard: credited here without a debit here (relayed, or a foreign sender). */
  function Inflow(cfg: ChainConfig, txs: seq<Transaction>): (v: int)
    requires AllReal(txs)
  {
    if txs == [] then 0
    else
      var last := txs[|txs| - 1];
      Inflow(cfg, txs[..|txs| - 1]) +
        if last.relayed || Home(cfg, last.sender) != cfg.shardID then last.value else 0
  }

  lemma ConservationStep(cfg: ChainConfig, e: Exec, index: nat, tx: Transaction)
    requires RealTx(tx)
    ensures var after := ApplyTx(cfg, e, index, tx).st;
            Excess(after, after.Keys)
              == Excess(e.st, e.st.Keys) + if Rejects(cfg, e.st, tx) || Debits(cfg, tx) then 0 else tx.value
  {
    if !Rejects(cfg, e.st, tx) {
      if Debits(cfg, tx) {
        ExcessWrite(e.st, tx.sender, index, -tx.value);
      }
      ExcessWrite(Debit(cfg, e, index, tx).st, CreditKey(cfg, tx), index, tx.value);
    }
  }

  /** Over any batch the shard's excess grows by exactly the value credited but not debited here. */
  lemma {:induction false} Conservation(cfg: ChainConfig, e: Exec, txs: seq<Transaction>)
    requires AllReal(txs)
    ensures var after := ApplyTxs(cfg, e, txs).st;
            Excess(after, after.Keys) == Excess(e.st, e.st.Keys) + Inflow(cfg, Accepted(cfg, e, txs))
  {
    if txs != [] {
      var n := |txs| - 1;
      var kept := Accepted(cfg, e, txs[..n]);
      Conservation(cfg, e, txs[..n]);
      ConservationStep(cfg, ApplyTxs(cfg, e, txs[..n]), n, txs[n]);
      assert (kept + [txs[n]])[..|kept|] == kept;
    }
  }

  // ----- The write counter -----

  function Writes(cfg: ChainConfig, txs: seq<Transaction>): (n: nat)
    ensures n == 0 <==> txs == []
  {
    if txs == [] then 0
    else
      var last := txs[|txs| - 1];
      Writes(cfg, txs[..|txs| - 1]) + if last.relayed || Home(cfg, last.sender) != cfg.shardID then 1 else 2
  }

  lemma CounterStep(cfg: ChainConfig, e: Exec, index: nat, tx: Transaction)
    ensures ApplyTx(cfg, e, index, tx).cnt
         == e.cnt + if Rejects(cfg, e.st, tx) then 0 else if Debits(cfg, tx) then 2 else 1
    ensures Rejects(cfg, e.st, tx) ==> ApplyTx(cfg, e, index, tx) == e
  {
  }

  /**
   * The counter is two per debited and one per credit-only accepted transaction; so it stays zero exactly when every
   * transaction is rejected, and then the trie is untouched.
   */
  lemma {:induction false} WriteCounter(cfg: ChainConfig, e: Exec, txs: seq<Transaction>)
    ensures ApplyTxs(cfg, e, txs).cnt == e.cnt + Writes(cfg, Accepted(cfg, e, txs))
    ensures ApplyTxs(cfg, e, txs).cnt == e.cnt <==> Accepted(cfg, e, txs) == []
    ensures Accepted(cfg, e, txs) == [] ==> ApplyTxs(cfg, e, txs) == e
  {
    if txs != [] {
      hide ApplyTx, Rejects;
      var n := |txs| - 1;
      var kept := Accepted(cfg, e, txs[..n]);
      WriteCounter(cfg, e, txs[..n]);
      CounterStep(cfg, ApplyTxs(cfg, e, txs[..n]), n, txs[n]);
      assert (kept + [txs[n]])[..|kept|] == kept;
    }
  }

  // ----- Balances stay non-negative -----

  predicate NonNegative(st: Trie) {
    forall key | key in st :: st[key].balance >= 0
  }

  predicate NonNegativeValues(txs: seq<Transaction>) {
    forall i | 0 <= i < |txs| :: txs[i].value >= 0
  }

  lemma NonNegativeStep(cfg: ChainConfig, e: Exec, index: nat, tx: Transaction)
    requires tx.value >= 0 && NonNegative(e.st)
    ensures NonNegative(ApplyTx(cfg, e, index, tx).st)
  {
    assert !Rejects(cfg, e.st, tx) ==> NonNegative(Debit(cfg, e, index, tx).st);
  }

  lemma {:induction false} BalancesStayNonNegative(cfg: ChainConfig, e: Exec, txs: seq<Transaction>)
    requires NonNegativeValues(txs) && NonNegative(e.st)
    ensures NonNegative(ApplyTxs(cfg, e, txs).st)
  {
    hide NonNegative;
    if txs != [] {
      var n := |txs| - 1;
      BalancesStayNonNegative(cfg, e, txs[..n]);
      NonNegativeStep(cfg, ApplyTxs(cfg, e, txs[..n]), n, txs[n]);
    }
  }

  // ----- Virtual accounts -----

  /** A virtual credit to recipient r from a sender that hashes to shard k. */
  predicate VirtualCredit(cfg: ChainConfig, tx: Transaction, r: Address, k: nat)
    requires RealTx(tx)
  {
    !tx.hasBroker && Home(cfg, tx.recipient) != cfg.shardID && tx.recipient == r &&
    Addr2Shard(tx.sender, cfg.shardNum) == k
  }

  function VirtualIncome(cfg: ChainConfig, txs: seq<Transaction>, r: Address, k: nat): (v: int)
    requires AllReal(txs)
  {
    if txs == [] then 0
    else
      var last := txs[|txs| - 1];
      VirtualIncome(cfg, txs[..|txs| - 1], r, k) + if VirtualCredit(cfg, last, r, k) then last.value else 0
  }

  lemma {:induction false} VirtualFlow(cfg: ChainConfig, txs: seq<Transaction>, r: Address, k: nat)
    requires AllReal(txs) && |r| == ADDRESS_LENGTH
    ensures NetFlow(cfg, txs, AddrVirtualAccount(r, k)) == VirtualIncome(cfg, txs, r, k)
  {
    if txs != [] {
      var last := txs[|txs| - 1];
      VirtualFlow(cfg, txs[..|txs| - 1], r, k);
      VirtualAccountInjective(last.recipient, Addr2Shard(last.sender, cfg.shardNum), r, k);
    }
  }

  /** The trie and the accepted history of a shard that runs batches from an empty trie. */
  datatype History = History(st: Trie, accepted: seq<Transaction>)

  function RunBatches(cfg: ChainConfig, batches: seq<seq<Transaction>>): (h: History)
    requires forall i | 0 <= i < |batches| :: AllReal(batches[i])
    ensures AllReal(h.accepted)
  {
    if batches == [] then History(map[], [])
    else
      var n := |batches| - 1;
      var before := RunBatches(cfg, batches[..n]);
      var e := Exec(before.st, 0, map[]);
      assert AllReal(batches[n]);
      History(ApplyTxs(cfg, e, batches[n]).st, before.accepted + Accepted(cfg, e, batches[n]))
  }

  lemma AppendFront(a: seq<Transaction>, b: seq<Transaction>)
    requires b != []
    ensures a + b != [] && (a + b)[..|a + b| - 1] == a + b[..|b| - 1] && (a + b)[|a + b| - 1] == b[|b| - 1]
  {
  }

  lemma {:induction false} VirtualIncomeAppend(
    cfg: ChainConfig, a: seq<Transaction>, b: seq<Transaction>, r: Address, k: nat)
    requires AllReal(a) && AllReal(b)
    ensures AllReal(a + b)
    ensures VirtualIncome(cfg, a + b, r, k) == VirtualIncome(cfg, a, r, k) + VirtualIncome(cfg, b, r, k)
  {
    if b == [] {
      assert a + b == a;
    } else {
      VirtualIncomeAppend(cfg, a, b[..|b| - 1], r, k);
      AppendFront(a, b);
    }
  }

  /**
   * In every reachable ledger state the virtual account of recipient r for sender shard k holds exactly the sum of
   * the accepted, non-broker transactions to r, foreign here, whose senders hash to k.
   */
  lemma {:induction false} VirtualAccountsCarryHistory(
    cfg: ChainConfig, batches: seq<seq<Transaction>>, r: Address, k: nat)
    requires forall i | 0 <= i < |batches| :: AllReal(batches[i])
    requires |r| == ADDRESS_LENGTH
    ensures var h := RunBatches(cfg, batches);
            Balance(h.st, AddrVirtualAccount(r, k)) == VirtualIncome(cfg, h.accepted, r, k)
  {
    if batches != [] {
      var n := |batches| - 1;
      var before := RunBatches(cfg, batches[..n]);
      var e := Exec(before.st, 0, map[]);
      var kept := Accepted(cfg, e, batches[n]);
      VirtualAccountsCarryHistory(cfg, batches[..n], r, k);
      ExactBalances(cfg, e, batches[n], AddrVirtualAccount(r, k));
      VirtualFlow(cfg, kept, r, k);
      VirtualIncomeAppend(cfg, before.accepted, kept, r, k);
    }
  }

  /** Every entry of AllStateMapTx is a virtual account and equals the trie's entry. */
  predicate VirtualsAgree(e: Exec) {
    forall key | key in e.virtuals :: |key| > ADDRESS_LENGTH && key in e.st && e.virtuals[key] == e.st[key]
  }

  lemma VirtualsAgreeStep(cfg: ChainConfig, e: Exec, index: nat, tx: Transaction)
    requires RealTx(tx) && VirtualsAgree(e)
    ensures VirtualsAgree(ApplyTx(cfg, e, index, tx))
  {
    assert |CreditKey(cfg, tx)| > ADDRESS_LENGTH || CreditsReal(cfg, tx);
  }

  lemma {:induction false} VirtualsStayAgreed(cfg: ChainConfig, e: Exec, txs: seq<Transaction>)
    requires AllReal(txs) && VirtualsAgree(e)
    ensures VirtualsAgree(ApplyTxs(cfg, e, txs))
  {
    if txs == [] {
      assert ApplyTxs(cfg, e, txs) == e;
    } else {
      hide VirtualsAgree, ApplyTx, RealTx;
      var n := |txs| - 1;
      VirtualsStayAgreed(cfg, e, txs[..n]);
      VirtualsAgreeStep(cfg, ApplyTxs(cfg, e, txs[..n]), n, txs[n]);
    }
  }

  // ----- Nonces -----

  lemma NonceStep(cfg: ChainConfig, e: Exec, index: nat, tx: Transaction, key: Address)
    ensures var after := ApplyTx(cfg, e, index, tx).st;
            if key in e.st then key in after && after[key].nonce == e.st[key].nonce
            else key in after ==> after[key].nonce == index
  {
    hide ParseHex, Itoa;
  }

  /** No batch changes a nonce; an account it opens has the position of the transaction that opened it. */
  lemma {:induction false} NonceIsOpeningPosition(cfg: ChainConfig, e: Exec, txs: seq<Transaction>, key: Address)
    ensures var after := ApplyTxs(cfg, e, txs).st;
            if key in e.st then key in after && after[key].nonce == e.st[key].nonce
            else key in after ==>
              exists i | 0 <= i < |txs| ::
                key !in ApplyTxs(cfg, e, txs[..i]).st && key in ApplyTxs(cfg, e, txs[..i + 1]).st &&
                after[key].nonce == i
  {
    hide ApplyTx;
    if txs != [] {
      var n := |txs| - 1;
      var before := ApplyTxs(cfg, e, txs[..n]).st;
      NonceIsOpeningPosition(cfg, e, txs[..n], key);
      NonceStep(cfg, ApplyTxs(cfg, e, txs[..n]), n, txs[n], key);
      assert txs[..n + 1] == txs;
      if key !in e.st && key in before {
        var i :| 0 <= i < n && key !in ApplyTxs(cfg, e, txs[..n][..i]).st &&
                 key in ApplyTxs(cfg, e, txs[..n][..i + 1]).st && before[key].nonce == i;
        assert txs[..n][..i] == txs[..i] && txs[..n][..i + 1] == txs[..i + 1];
      }
    }
  }

  // ----- Replicas -----

  /** Nodes of one shard: they may differ in node number and block size only. */
  predicate SameShard(c: ChainConfig, d: ChainConfig) {
    c.shardID == d.shardID && c.shardNum == d.shardNum && c.mapInfo == d.mapInfo
  }

  /** A batch on a trie gives the same trie and accepts the same transactions on every node of the shard. */
  lemma {:induction false} ReplicasExecuteAlike(
    c: ChainConfig, d: ChainConfig, e: Exec, f: Exec, txs: seq<Transaction>)
    requires SameShard(c, d) && e.st == f.st
    ensures ApplyTxs(c, e, txs).st == ApplyTxs(d, f, txs).st && Accepted(c, e, txs) == Accepted(d, f, txs)
  {
    if txs != [] {
      var n := |txs| - 1;
      ReplicasExecuteAlike(c, d, e, f, txs[..n]);
      ReplicasStepAlike(c, d, ApplyTxs(c, e, txs[..n]), ApplyTxs(d, f, txs[..n]), n, txs[n]);
    }
  }

  lemma ReplicasStepAlike(c: ChainConfig, d: ChainConfig, e: Exec, f: Exec, index: nat, tx: Transaction)
    requires SameShard(c, d) && e.st == f.st
    ensures ApplyTx(c, e, index, tx).st == ApplyTx(d, f, index, tx).st
    ensures Rejects(c, e.st, tx) == Rejects(d, f.st, tx)
  {
    hide ParseHex, Itoa;
  }

  /** And it panics on all of them or on none. */
  lemma ReplicasSurviveAlike(c: ChainConfig, d: ChainConfig, st: Trie, txs: seq<Transaction>)
    requires SameShard(c, d)
    ensures AllSurvive(c, st, txs) <==> AllSurvive(d, st, txs)
  {
    var e := Exec(st, 0, map[]);
    forall i | 0 <= i < |txs|
      ensures Survives(c, Execute(c, st, txs[..i]), txs[i]) <==> Survives(d, Execute(d, st, txs[..i]), txs[i])
    {
      ReplicasExecuteAlike(c, d, e, e, txs[..i]);
    }
  }

  lemma VirtualsStep(cfg: ChainConfig, e: Exec, f: Exec, v: Trie, index: nat, tx: Transaction)
    requires e.st == f.st && e.virtuals == v + f.virtuals
    ensures ApplyTx(cfg, e, index, tx).virtuals == v + ApplyTx(cfg, f, index, tx).virtuals
  {
    hide Write;
  }

  /** A batch adds its own entries to AllStateMapTx, whatever was there. */
  lemma {:induction false} VirtualsAppend(cfg: ChainConfig, e: Exec, txs: seq<Transaction>)
    ensures ApplyTxs(cfg, e, txs).virtuals == e.virtuals + ApplyTxs(cfg, Exec(e.st, 0, map[]), txs).virtuals
  {
    hide ApplyTx;
    if txs != [] {
      var n, f := |txs| - 1, Exec(e.st, 0, map[]);
      VirtualsAppend(cfg, e, txs[..n]);
      ReplicasExecuteAlike(cfg, cfg, e, f, txs[..n]);
      VirtualsStep(cfg, ApplyTxs(cfg, e, txs[..n]), ApplyTxs(cfg, f, txs[..n]), e.virtuals, n, txs[n]);
    } else {
      assert e.virtuals + map[] == e.virtuals;
    }
  }

  /**
   * Once the block of an executed batch is added, AllStateMapTx agrees with the trie, also on a node that executes
   * the batch a second time when it adds the block.
   */
  lemma AddedBlockAgrees(cfg: ChainConfig, st: Trie, v: Trie, txs: seq<Transaction>)
    requires AllReal(txs) && VirtualsAgree(Exec(st, 0, v))
    ensures var once := ApplyTxs(cfg, Exec(st, 0, v), txs).virtuals;
            VirtualsAgree(Exec(Execute(cfg, st, txs), 0, once)) &&
            ApplyTxs(cfg, Exec(st, 0, once), txs).virtuals == once
  {
    hide ApplyTxs;
    var e := Exec(st, 0, v);
    var once := ApplyTxs(cfg, e, txs).virtuals;
    var own := ApplyTxs(cfg, Exec(st, 0, map[]), txs).virtuals;
    VirtualsStayAgreed(cfg, e, txs);
    ReplicasExecuteAlike(cfg, cfg, e, Exec(st, 0, map[]), txs);
    VirtualsAppend(cfg, e, txs);
    VirtualsAppend(cfg, Exec(st, 0, once), txs);
    assert v + own + own == v + own;
  }

  // ----- Batch boundaries do not matter for balances -----

  /** Nonces may differ: a new account's nonce is its position in the batch. */
  predicate SameBalances(s: Trie, t: Trie) {
    s.Keys == t.Keys && forall key | key in s :: s[key].balance == t[key].balance
  }

  lemma SameBalancesReflexive(s: Trie)
    ensures SameBalances(s, s)
  {
    hide ParseHex, Itoa;
  }

  lemma SameBalancesWrite(s: Trie, t: Trie, key: Address, i: nat, j: nat, opening: int, change: int)
    requires SameBalances(s, t)
    ensures Load(s, key, i, opening).balance == Load(t, key, j, opening).balance
    ensures SameBalances(Write(s, key, i, opening, change), Write(t, key, j, opening, change))
  {
  }

  lemma SameBalancesStep(cfg: ChainConfig, d: Exec, e: Exec, i: nat, j: nat, tx: Transaction)
    requires SameBalances(d.st, e.st)
    ensures SameBalances(ApplyTx(cfg, d, i, tx).st, ApplyTx(cfg, e, j, tx).st)
    ensures Rejects(cfg, d.st, tx) <==> Rejects(cfg, e.st, tx)
  {
    hide Write, SameBalances, CreditKey;
    SameBalancesWrite(d.st, e.st, tx.sender, 0, 0, INIT_BALANCE, 0);
    SameBalancesWrite(d.st, e.st, tx.sender, i, j, INIT_BALANCE, -tx.value);
    var opening := if CreditsReal(cfg, tx) then INIT_BALANCE else VIRTUAL_INIT_BALANCE;
    SameBalancesWrite(Debit(cfg, d, i, tx).st, Debit(cfg, e, j, tx).st, CreditKey(cfg, tx), i, j, opening, tx.value);
  }

  lemma {:induction false} SplitBatch(
    cfg: ChainConfig, d: Exec, e: Exec, first: seq<Transaction>, second: seq<Transaction>)
    requires SameBalances(ApplyTxs(cfg, d, first).st, e.st)
    ensures SameBalances(ApplyTxs(cfg, d, first + second).st, ApplyTxs(cfg, e, second).st)
  {
    hide ApplyTx, SameBalances;
    if second == [] {
      assert first + second == first;
    } else {
      var n := |second| - 1;
      var all := first + second;
      SplitBatch(cfg, d, e, first, second[..n]);
      assert all[..|all| - 1] == first + second[..n];
      SameBalancesStep(cfg, ApplyTxs(cfg, d, first + second[..n]), ApplyTxs(cfg, e, second[..n]),
                       |all| - 1, n, second[n]);
    }
  }

  /** Executing a list panics exactly when executing it in two batches does. */
  lemma SplitSurvives(cfg: ChainConfig, st: Trie, first: seq<Transaction>, second: seq<Transaction>)
    ensures AllSurvive(cfg, st, first + second) <==>
            AllSurvive(cfg, st, first) && AllSurvive(cfg, Execute(cfg, st, first), second)
  {
    var all, mid := first + second, Execute(cfg, st, first);
    assert forall i | 0 <= i < |first| :: all[..i] == first[..i];
    forall j | 0 <= j < |second|
      ensures Survives(cfg, Execute(cfg, st, all[..|first| + j]), all[|first| + j]) <==>
              Survives(cfg, Execute(cfg, mid, second[..j]), second[j])
    {
      assert all[..|first| + j] == first + second[..j];
      SplitKeepsRejection(cfg, st, first, second[..j], second[j]);
    }
    hide Execute, Survives;
    assert forall j | 0 <= j < |second| :: second[j] == all[|first| + j];
    assert forall i | |first| <= i < |all| :: all[i] == second[i - |first|];
  }

  lemma SplitKeepsRejection(
    cfg: ChainConfig, st: Trie, first: seq<Transaction>, second: seq<Transaction>, tx: Transaction)
    ensures Rejects(cfg, Execute(cfg, st, first + second), tx) <==>
            Rejects(cfg, Execute(cfg, Execute(cfg, st, first), second), tx)
  {
    hide ApplyTx, ApplyTxs, SameBalances, Rejects;
    var d, e := Exec(st, 0, map[]), Exec(Execute(cfg, st, first), 0, map[]);
    SameBalancesReflexive(e.st);
    SplitBatch(cfg, d, e, first, second);
    SameBalancesStep(cfg, ApplyTxs(cfg, d, first + second), ApplyTxs(cfg, e, second), 0, 0, tx);
  }

  /** The trie and the number of blocks after generating and adding blocks until the pool is empty. */
  datatype Drained = Drained(st: Trie, blocks: nat)

  function Drain(cfg: ChainConfig, st: Trie, queue: seq<Transaction>): (d: Drained)
    requires cfg.blockSize > 0
    decreases |queue|
  {
    if queue == [] then Drained(st, 0)
    else
      var n := if |queue| < cfg.blockSize then |queue| else cfg.blockSize;
      var rest := Drain(cfg, Execute(cfg, st, queue[..n]), queue[n..]);
      Drained(rest.st, rest.blocks + 1)
  }

  lemma {:induction false} DrainAgrees(
    cfg: ChainConfig, d: Exec, done: seq<Transaction>, st: Trie, queue: seq<Transaction>)
    requires cfg.blockSize > 0
    requires SameBalances(ApplyTxs(cfg, d, done).st, st)
    ensures SameBalances(ApplyTxs(cfg, d, done + queue).st, Drain(cfg, st, queue).st)
    decreases |queue|
  {
    hide ApplyTx, SameBalances;
    if queue == [] {
      assert done + queue == done;
    } else {
      var n := if |queue| < cfg.blockSize then |queue| else cfg.blockSize;
      SplitBatch(cfg, d, Exec(st, 0, map[]), done, queue[..n]);
      DrainAgrees(cfg, d, done + queue[..n], Execute(cfg, st, queue[..n]), queue[n..]);
      assert done + queue[..n] + queue[n..] == done + queue;
    }
  }

  lemma OneMoreMultiple(x: nat, size: Positive)
    ensures (x + size) / size == x / size + 1
  {
    assert x == size * (x / size) + x % size;
    assert x + size == size * (x / size + 1) + x % size;
    MultiplesOrdered((x + size) / size, x / size, size);
    MultiplesOrdered(x / size + 2, (x + size) / size, size);
  }

  lemma {:induction false} DrainBlocks(cfg: ChainConfig, st: Trie, queue: seq<Transaction>)
    requires cfg.blockSize > 0
    ensures Drain(cfg, st, queue).blocks == (|queue| + cfg.blockSize - 1) / cfg.blockSize
    decreases |queue|
  {
    hide ApplyTxs;
    if queue != [] {
      var n := if |queue| < cfg.blockSize then |queue| else cfg.blockSize;
      DrainBlocks(cfg, Execute(cfg, st, queue[..n]), queue[n..]);
      OneMoreMultiple(|queue| - 1, cfg.blockSize);
    }
  }

  /**
   * The block size does not matter: for any size of at least one the pool empties after the fewest blocks that can
   * hold it, and every balance is the one the whole queue gives as a single batch.
   */
  lemma BlockSizeDoesNotMatter(cfg: ChainConfig, st: Trie, queue: seq<Transaction>)
    requires cfg.blockSize > 0
    ensures SameBalances(Execute(cfg, st, queue), Drain(cfg, st, queue).st)
    ensures Drain(cfg, st, queue).blocks == (|queue| + cfg.blockSize - 1) / cfg.blockSize
  {
    hide ApplyTx, Drain, SameBalances;
    var e := Exec(st, 0, map[]);
    assert ApplyTxs(cfg, e, []).st == st;
    SameBalancesReflexive(st);
    DrainAgrees(cfg, e, [], st, queue);
    assert [] + queue == queue;
    DrainBlocks(cfg, st, queue);
  }

  lemma MultiplesOrdered(a: int, b: int, size: Positive)
    ensures a <= b ==> a * size <= b * size
    ensures (a + 1) * size == a * size + size && (b + 1) * size == b * size + size
  {
  }
}
