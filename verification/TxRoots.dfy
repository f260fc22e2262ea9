/** What a transaction root commits to, and so which bodies IsValidBlock accepts under a header. */
module TxRoots {
  import opened Bytes
  import opened Transactions
  import opened Ledger
  import opened Blocks
  import opened ChainStates

  /** No later transaction of the list has the same hash. */
  predicate LastOfHash(txs: seq<Transaction>, i: nat)
    requires i < |txs|
  {
    forall j | i < j < |txs| :: txs[j].txHash != txs[i].txHash
  }

  /** The tree holds exactly the hashes of the list, each with the last transaction of that hash. */
  lemma TreeHoldsLast(txs: seq<Transaction>)
    ensures forall h :: h in TxTree(txs) <==> exists i :: 0 <= i < |txs| && txs[i].txHash == h
    ensures forall i | 0 <= i < |txs| && LastOfHash(txs, i) :: TxTree(txs)[txs[i].txHash] == txs[i]
  {
    hide TxTree, LastOfHash;
    forall h ensures h in TxTree(txs) <==> exists i :: 0 <= i < |txs| && txs[i].txHash == h {
      TreeHashes(txs, h);
    }
    forall i | 0 <= i < |txs| && LastOfHash(txs, i) ensures TxTree(txs)[txs[i].txHash] == txs[i] {
      TreeShows(txs, i);
    }
  }

  lemma {:induction false} TreeHashes(txs: seq<Transaction>, h: seq<Byte>)
    ensures h in TxTree(txs) <==> exists i :: 0 <= i < |txs| && txs[i].txHash == h
  {
    if txs != [] {
      var n := |txs| - 1;
      TreeHashes(txs[..n], h);
      assert forall i | 0 <= i < n :: txs[..n][i] == txs[i];
    }
  }

  lemma {:induction false} TreeShows(txs: seq<Transaction>, i: nat)
    requires i < |txs| && LastOfHash(txs, i)
    ensures txs[i].txHash in TxTree(txs) && TxTree(txs)[txs[i].txHash] == txs[i]
  {
    var n := |txs| - 1;
    if i < n {
      assert LastOfHash(txs[..n], i);
      TreeShows(txs[..n], i);
    }
  }

  lemma {:induction false} SomeIsLast(txs: seq<Transaction>, i: nat) returns (j: nat)
    requires i < |txs|
    ensures i <= j < |txs| && txs[j].txHash == txs[i].txHash && LastOfHash(txs, j)
    decreases |txs| - i
  {
    if LastOfHash(txs, i) {
      j := i;
    } else {
      var k :| i < k < |txs| && txs[k].txHash == txs[i].txHash;
      j := SomeIsLast(txs, k);
    }
  }

  /** Every transaction that is the last of its hash in a is one in b. */
  predicate LastsIn(a: seq<Transaction>, b: seq<Transaction>) {
    forall i | 0 <= i < |a| && LastOfHash(a, i) :: exists j :: 0 <= j < |b| && LastOfHash(b, j) && b[j] == a[i]
  }

  lemma SameTreeLastsIn(a: seq<Transaction>, b: seq<Transaction>)
    requires TxTree(a) == TxTree(b)
    ensures LastsIn(a, b)
  {
    TreeHoldsLast(a);
    TreeHoldsLast(b);
    hide TxTree;
    forall i | 0 <= i < |a| && LastOfHash(a, i) ensures exists j :: 0 <= j < |b| && LastOfHash(b, j) && b[j] == a[i] {
      assert a[i].txHash in TxTree(a);
      var k :| 0 <= k < |b| && b[k].txHash == a[i].txHash;
      var j := SomeIsLast(b, k);
      assert b[j] == TxTree(b)[b[j].txHash];
    }
  }

  lemma LastsInSameTree(a: seq<Transaction>, b: seq<Transaction>, h: seq<Byte>)
    requires LastsIn(a, b) && h in TxTree(a)
    ensures h in TxTree(b) && TxTree(b)[h] == TxTree(a)[h]
  {
    TreeHoldsLast(a);
    TreeHoldsLast(b);
    hide TxTree;
    var k :| 0 <= k < |a| && a[k].txHash == h;
    var i := SomeIsLast(a, k);
    var j :| 0 <= j < |b| && LastOfHash(b, j) && b[j] == a[i];
  }

  /** Two bodies have the same root exactly when they have the same last transaction of every hash. */
  lemma SameRootExactly(a: seq<Transaction>, b: seq<Transaction>)
    ensures GetTxTreeRoot(a) == GetTxTreeRoot(b) <==> LastsIn(a, b) && LastsIn(b, a)
  {
    hide LastsIn, TxTree;
    if GetTxTreeRoot(a) == GetTxTreeRoot(b) {
      SameTreeLastsIn(a, b);
      SameTreeLastsIn(b, a);
    }
    if LastsIn(a, b) && LastsIn(b, a) {
      SameLastsSameTree(a, b);
    }
  }

  lemma SameLastsSameTree(a: seq<Transaction>, b: seq<Transaction>)
    requires LastsIn(a, b) && LastsIn(b, a)
    ensures TxTree(a) == TxTree(b)
  {
    hide LastsIn, TxTree;
    forall h | h in TxTree(a) ensures h in TxTree(b) && TxTree(b)[h] == TxTree(a)[h] {
      LastsInSameTree(a, b, h);
    }
    forall h | h in TxTree(b) ensures h in TxTree(a) {
      LastsInSameTree(b, a, h);
    }
  }

  predicate DistinctHashes(txs: seq<Transaction>) {
    forall i, j | 0 <= i < j < |txs| :: txs[i].txHash != txs[j].txHash
  }

  lemma {:induction false} DistinctOnce(txs: seq<Transaction>, tx: Transaction)
    requires DistinctHashes(txs)
    ensures multiset(txs)[tx] == if tx in txs then 1 else 0
  {
    if txs != [] {
      var n := |txs| - 1;
      DistinctOnce(txs[..n], tx);
      assert txs == txs[..n] + [txs[n]];
      assert tx in txs[..n] ==> tx.txHash != txs[n].txHash;
    }
  }

  /** Among bodies without repeated hashes the root commits to the transactions, but not to their order. */
  lemma RootCommitsToSet(a: seq<Transaction>, b: seq<Transaction>)
    requires DistinctHashes(a) && DistinctHashes(b)
    ensures GetTxTreeRoot(a) == GetTxTreeRoot(b) <==> multiset(a) == multiset(b)
  {
    SameRootExactly(a, b);
    DistinctLasts(a, b);
    DistinctLasts(b, a);
    hide GetTxTreeRoot, LastsIn, DistinctHashes;
    if LastsIn(a, b) && LastsIn(b, a) {
      forall tx ensures multiset(a)[tx] == multiset(b)[tx] {
        DistinctOnce(a, tx);
        DistinctOnce(b, tx);
      }
    }
    if multiset(a) == multiset(b) {
      forall tx ensures tx in a <==> tx in b {
        assert tx in multiset(a) <==> tx in multiset(b);
      }
    }
  }

  lemma DistinctLasts(a: seq<Transaction>, b: seq<Transaction>)
    requires DistinctHashes(a) && DistinctHashes(b)
    ensures LastsIn(a, b) <==> forall tx :: tx in a ==> tx in b
  {
    assert forall i | 0 <= i < |a| :: LastOfHash(a, i);
    assert forall j | 0 <= j < |b| :: LastOfHash(b, j);
    hide LastOfHash;
    if LastsIn(a, b) {
      forall tx | tx in a ensures tx in b {
        var i :| 0 <= i < |a| && a[i] == tx;
        assert LastOfHash(a, i);
      }
    }
    if forall tx :: tx in a ==> tx in b {
      forall i | 0 <= i < |a| ensures exists j :: 0 <= j < |b| && LastOfHash(b, j) && b[j] == a[i] {
        assert a[i] in a;
        var j :| 0 <= j < |b| && b[j] == a[i];
        assert LastOfHash(b, j);
      }
    }
  }

  /**
   * A body that lacks, adds or changes a transaction of a generated block is not accepted under its header; one that
   * only changes their order is.
   */
  lemma TamperedBodyExactly(
    cfg: ChainConfig, current: Block, txs: seq<Transaction>, now: nat, body: seq<Transaction>)
    requires DistinctHashes(txs) && DistinctHashes(body)
    ensures PassesIsValidBlock(current, NextBlock(cfg, current, txs, now).(body := body)) <==>
            multiset(body) == multiset(txs)
  {
    hide TxTree, RootAfter, DistinctHashes;
    RootCommitsToSet(body, txs);
  }

  /** With repeated hashes it need not even be the same transactions: an earlier one of the same hash is not covered. */
  lemma RepeatedHashIsFree(
    cfg: ChainConfig, current: Block, tx: Transaction, earlier: Transaction, now: nat)
    requires earlier.txHash == tx.txHash
    ensures PassesIsValidBlock(current, NextBlock(cfg, current, [tx], now).(body := [earlier, tx]))
  {
    hide RootAfter;
    var a, b := [tx], [earlier, tx];
    assert b[1] == a[0] == tx && LastOfHash(a, 0) && LastOfHash(b, 1);
    assert b[1].txHash == b[0].txHash;
    SameRootExactly(b, a);
  }
}
