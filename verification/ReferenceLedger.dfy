/** test/test_result.go: the sequential ledger the shards are checked against. */
module ReferenceLedger {
  import opened Addresses
  import opened Transactions

  type Balances = map<Address, int>

  function RefBalance(m: Balances, addr: Address): (b: int) {
    if addr in m then m[addr] else INIT_BALANCE
  }

  function Open(m: Balances, addr: Address): (r: Balances) {
    m[addr := RefBalance(m, addr)]
  }

  predicate RefAccepts(m: Balances, tx: Transaction) {
    RefBalance(m, tx.sender) >= tx.value
  }

  function RefStep(m: Balances, tx: Transaction): (r: Balances) {
    var both := Open(Open(m, tx.sender), tx.recipient);
    if !RefAccepts(m, tx) then both
    else
      var debited := both[tx.sender := both[tx.sender] - tx.value];
      debited[tx.recipient := debited[tx.recipient] + tx.value]
  }

  function RefRun(txs: seq<Transaction>): (m: Balances) {
    if txs == [] then map[] else RefStep(RefRun(txs[..|txs| - 1]), txs[|txs| - 1])
  }

  /** The transactions the reference ledger carries out, in order. */
  function RefAccepted(txs: seq<Transaction>): (kept: seq<Transaction>)
    ensures |kept| <= |txs|
  {
    if txs == [] then []
    else
      var n := |txs| - 1;
      RefAccepted(txs[..n]) + if RefAccepts(RefRun(txs[..n]), txs[n]) then [txs[n]] else []
  }

  /** The change an accepted transaction makes to the balance of addr. */
  function RefDelta(tx: Transaction, addr: Address): (d: int) {
    (if tx.recipient == addr then tx.value else 0) - (if tx.sender == addr then tx.value else 0)
  }

  lemma RefStepDelta(m: Balances, tx: Transaction, addr: Address)
    ensures RefBalance(RefStep(m, tx), addr)
         == RefBalance(m, addr) + if RefAccepts(m, tx) then RefDelta(tx, addr) else 0
  {
  }

  lemma RefRunNext(txs: seq<Transaction>, i: nat)
    requires i < |txs|
    ensures RefRun(txs[..i + 1]) == RefStep(RefRun(txs[..i]), txs[i])
  {
    assert txs[..i + 1][..i] == txs[..i];
  }

  /** Every account that was named by a transaction, carried out or not, has a balance, and no other. */
  lemma {:induction false} RefRunOpens(txs: seq<Transaction>, addr: Address)
    ensures addr in RefRun(txs) <==> exists i :: 0 <= i < |txs| && (txs[i].sender == addr || txs[i].recipient == addr)
  {
    if txs != [] {
      var n := |txs| - 1;
      RefRunOpens(txs[..n], addr);
      assert forall i | 0 <= i < n :: txs[..n][i] == txs[i];
    }
  }

  /** The reference loop. */
  method Ttestresult(txs: seq<Transaction>) returns (accountBalance: Balances)
    ensures accountBalance == RefRun(txs)
  {
    assert txs[..|txs|] == txs && RefRun(txs[..0]) == map[];
    hide RefRun, RefStep;
    accountBalance := map[];
    for i := 0 to |txs|
      invariant accountBalance == RefRun(txs[..i])
    {
      RefRunNext(txs, i);
      accountBalance := ProcessRef(accountBalance, txs[i]);
    }
  }

  /** Its body. */
  method ProcessRef(before: Balances, tx: Transaction) returns (accountBalance: Balances)
    ensures accountBalance == RefStep(before, tx)
  {
    accountBalance := before;
    if tx.sender !in accountBalance {
      accountBalance := accountBalance[tx.sender := INIT_BALANCE];
    }
    if tx.recipient !in accountBalance {
      accountBalance := accountBalance[tx.recipient := INIT_BALANCE];
    }
    assert accountBalance == Open(Open(before, tx.sender), tx.recipient);
    if accountBalance[tx.sender] >= tx.value {
      accountBalance := accountBalance[tx.sender := accountBalance[tx.sender] - tx.value];
      accountBalance := accountBalance[tx.recipient := accountBalance[tx.recipient] + tx.value];
    }
  }
}
