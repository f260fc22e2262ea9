/** What one transaction does to the trie, on its own fields and on the account table. */
module TransferLaws {
  import opened Addresses
  import opened Transactions
  import opened Ledger
  import opened LedgerLaws

  /** The table decides for the accounts it lists; others live where the last eight digits of their address say. */
  predicate LivesHere(cfg: ChainConfig, addr: Address) {
    if addr in cfg.mapInfo then cfg.mapInfo[addr] == cfg.shardID
    else Shardable(addr) && Addr2Shard(addr, cfg.shardNum) == cfg.shardID
  }

  predicate HasHome(cfg: ChainConfig, addr: Address) {
    addr in cfg.mapInfo || Shardable(addr)
  }

  /** A transaction that was not relayed is paid by a sender who lives here. */
  predicate Pays(cfg: ChainConfig, tx: Transaction) {
    !tx.relayed && LivesHere(cfg, tx.sender)
  }

  /** What it may spend: an account not in the trie has the initial balance. */
  function Funds(st: Trie, addr: Address): (balance: int) {
    if addr in st then st[addr].balance else 1_000_000_000_000_000_000_000_000_000_000_000_000_000_000_000
  }

  /** The account credited, and what it is opened with: brokers reach every recipient, others only those living here. */
  function CreditedTo(cfg: ChainConfig, tx: Transaction): (r: (Address, int))
    requires tx.hasBroker || LivesHere(cfg, tx.recipient) || Shardable(tx.sender)
  {
    if tx.hasBroker || LivesHere(cfg, tx.recipient) then (tx.recipient, Funds(map[], tx.recipient))
    else (tx.recipient + Itoa(Addr2Shard(tx.sender, cfg.shardNum)), 0)
  }

  /** The balance under key changed; a new account was opened first, with the index as its nonce. */
  predicate Moved(st: Trie, after: Trie, key: Address, index: nat, opening: int, change: int) {
    key in after &&
    after[key] == if key in st then AccountData(st[key].nonce, st[key].balance + change)
                  else AccountData(index, opening + change)
  }

  predicate SameUnder(st: Trie, after: Trie, key: Address) {
    (key in after <==> key in st) && (key in st ==> after[key] == st[key])
  }

  /**
   * A transaction whose paying sender lacks the funds changes nothing. Any other moves its value from the sender, if
   * it pays, to the account credited, records that account in AllStateMapTx if it is virtual, and touches no other.
   */
  lemma TransferOnTable(cfg: ChainConfig, e: Exec, index: nat, tx: Transaction)
    requires Survives(cfg, e.st, tx)
    ensures var after := ApplyTx(cfg, e, index, tx);
            if Pays(cfg, tx) && Funds(e.st, tx.sender) < tx.value then after == e
            else
              var (key, opening) := CreditedTo(cfg, tx);
              (if Pays(cfg, tx) && tx.sender == key then
                 Moved(e.st, after.st, key, index, Funds(map[], tx.sender), 0)
               else
                 Moved(e.st, after.st, key, index, opening, tx.value) &&
                 (Pays(cfg, tx) ==> Moved(e.st, after.st, tx.sender, index, Funds(map[], tx.sender), -tx.value))) &&
              (forall k | k != key && (Pays(cfg, tx) ==> k != tx.sender) :: SameUnder(e.st, after.st, k)) &&
              after.cnt == e.cnt + (if Pays(cfg, tx) then 2 else 1) &&
              after.virtuals == if key == tx.recipient then e.virtuals else e.virtuals[key := after.st[key]]
  {
    hide ParseHex, Itoa;
    PanicsOnTable(cfg, e.st, tx);
    if !Rejects(cfg, e.st, tx) {
      assert CreditKey(cfg, tx) == CreditedTo(cfg, tx).0;
    }
  }

  /**
   * Executing it panics exactly on an address that is looked at and does not parse: the sender's unless it was
   * relayed; then, unless it is rejected, the recipient's, and for a virtual account the sender's in any case.
   */
  lemma PanicsOnTable(cfg: ChainConfig, st: Trie, tx: Transaction)
    ensures Survives(cfg, st, tx) <==>
            (tx.relayed || HasHome(cfg, tx.sender)) &&
            ((Pays(cfg, tx) && Funds(st, tx.sender) < tx.value) ||
             (HasHome(cfg, tx.recipient) &&
              (tx.hasBroker || LivesHere(cfg, tx.recipient) || Shardable(tx.sender))))
  {
    hide ParseHex;
  }

  /** A listed account is debited on the shard the table gives, and on no other, whatever its address hashes to. */
  lemma ListedSenderPaysThere(cfg: ChainConfig, e: Exec, index: nat, tx: Transaction)
    requires RealTx(tx) && tx.sender in cfg.mapInfo && tx.sender != tx.recipient && !tx.relayed
    requires Funds(e.st, tx.sender) >= tx.value
    ensures Balance(ApplyTx(cfg, e, index, tx).st, tx.sender)
         == Balance(e.st, tx.sender) - if cfg.mapInfo[tx.sender] == cfg.shardID then tx.value else 0
  {
    hide ParseHex, Itoa;
    ApplyTxDelta(cfg, e, index, tx, tx.sender);
  }

  /** A listed account is credited itself on that shard; elsewhere a virtual account is, unless a broker sends. */
  lemma ListedRecipientIsPaidThere(cfg: ChainConfig, e: Exec, index: nat, tx: Transaction)
    requires RealTx(tx) && tx.recipient in cfg.mapInfo && tx.sender != tx.recipient
    requires Funds(e.st, tx.sender) >= tx.value
    ensures Balance(ApplyTx(cfg, e, index, tx).st, tx.recipient)
         == Balance(e.st, tx.recipient)
          + if tx.hasBroker || cfg.mapInfo[tx.recipient] == cfg.shardID then tx.value else 0
  {
    hide ParseHex, Itoa;
    ApplyTxDelta(cfg, e, index, tx, tx.recipient);
  }

  /**
   * A table of addresses that are not forty characters long, as those with the 0x prefix are not, is never consulted
   * for the addresses that transactions carry without it.
   */
  lemma {:induction false} PrefixedTableIsIdle(cfg: ChainConfig, e: Exec, txs: seq<Transaction>)
    requires AllReal(txs) && forall addr | addr in cfg.mapInfo :: |addr| != 40
    ensures ApplyTxs(cfg, e, txs) == ApplyTxs(cfg.(mapInfo := map[]), e, txs)
  {
    hide ApplyTx;
    if txs != [] {
      var n := |txs| - 1;
      PrefixedTableIsIdle(cfg, e, txs[..n]);
      IdleStep(cfg, ApplyTxs(cfg, e, txs[..n]), n, txs[n]);
    }
  }

  lemma IdleStep(cfg: ChainConfig, e: Exec, index: nat, tx: Transaction)
    requires RealTx(tx) && forall addr | addr in cfg.mapInfo :: |addr| != 40
    ensures ApplyTx(cfg, e, index, tx) == ApplyTx(cfg.(mapInfo := map[]), e, index, tx)
  {
    hide ParseHex, Itoa, Write;
    var c := cfg.(mapInfo := map[]);
    assert Home(cfg, tx.sender) == Home(c, tx.sender) && Home(cfg, tx.recipient) == Home(c, tx.recipient);
  }
}
