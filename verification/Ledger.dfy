/** The state transition of GetUpdateStatusTrie in chain/blockchain.go, as a function on the state trie. */
module Ledger {
  import opened Addresses
  import opened Transactions

  /** What the trie stores for an account. */
  datatype AccountData = AccountData(nonce: nat, balance: int)

  type Trie = map<Address, AccountData>

  // ----- Routing -----

  predicate Routable(cfg: ChainConfig, addr: Address) {
    addr in cfg.mapInfo || Shardable(addr)
  }

  /** The default shard; on an address that does not parse, where the program panics, any number will do. */
  function DefaultShard(cfg: ChainConfig, addr: Address): (shard: nat) {
    if Shardable(addr) then Addr2Shard(addr, cfg.shardNum) else 0
  }

  /** Get_PartitionMap while the partition map is the literal table. */
  function Home(cfg: ChainConfig, addr: Address): (shard: nat) {
    if addr in cfg.mapInfo then cfg.mapInfo[addr] else DefaultShard(cfg, addr)
  }

  /** Executing the transaction in full does not panic: the addresses it parses do parse. */
  predicate Processable(cfg: ChainConfig, tx: Transaction) {
    SenderResolves(cfg, tx) && Routable(cfg, tx.recipient) && (CreditsReal(cfg, tx) || Shardable(tx.sender))
  }

  /** The shard of a relayed transaction's sender is not looked up. */
  predicate SenderResolves(cfg: ChainConfig, tx: Transaction) {
    tx.relayed || Routable(cfg, tx.sender)
  }

  /** Executing it from this trie does not panic; a skipped transaction's recipient is not looked at. */
  predicate Survives(cfg: ChainConfig, st: Trie, tx: Transaction) {
    SenderResolves(cfg, tx) && (Rejects(cfg, st, tx) || Processable(cfg, tx))
  }

  /** Executing the batch from this trie does not panic. */
  predicate AllSurvive(cfg: ChainConfig, st: Trie, txs: seq<Transaction>) {
    forall i | 0 <= i < |txs| :: Survives(cfg, Execute(cfg, st, txs[..i]), txs[i])
  }

  /** The sender's account is debited here. */
  predicate Debits(cfg: ChainConfig, tx: Transaction) {
    !tx.relayed && Home(cfg, tx.sender) == cfg.shardID
  }

  /** The recipient's own account is credited here, rather than a virtual one. */
  predicate CreditsReal(cfg: ChainConfig, tx: Transaction) {
    Home(cfg, tx.recipient) == cfg.shardID || tx.hasBroker
  }

  function CreditKey(cfg: ChainConfig, tx: Transaction): (key: Address) {
    if CreditsReal(cfg, tx) then tx.recipient
    else AddrVirtualAccount(tx.recipient, DefaultShard(cfg, tx.sender))
  }

  // ----- One transaction -----

  /** The account under key, or a new one with the batch index as nonce. */
  function Load(st: Trie, key: Address, index: nat, opening: int): (a: AccountData) {
    if key in st then st[key] else AccountData(index, opening)
  }

  /** A debited sender without the funds: the whole transaction is skipped. */
  predicate Rejects(cfg: ChainConfig, st: Trie, tx: Transaction) {
    Debits(cfg, tx) && Load(st, tx.sender, 0, INIT_BALANCE).balance < tx.value
  }

  /** The trie, the number of writes to it, and the entries of AllStateMapTx. */
  datatype Exec = Exec(st: Trie, cnt: nat, virtuals: Trie)

  function Write(st: Trie, key: Address, index: nat, opening: int, change: int): (r: Trie) {
    var a := Load(st, key, index, opening);
    st[key := a.(balance := a.balance + change)]
  }

  function Debit(cfg: ChainConfig, e: Exec, index: nat, tx: Transaction): (r: Exec) {
    if Debits(cfg, tx) then e.(st := Write(e.st, tx.sender, index, INIT_BALANCE, -tx.value), cnt := e.cnt + 1)
    else e
  }

  function Credit(cfg: ChainConfig, e: Exec, index: nat, tx: Transaction): (r: Exec) {
    var key := CreditKey(cfg, tx);
    if CreditsReal(cfg, tx) then e.(st := Write(e.st, key, index, INIT_BALANCE, tx.value), cnt := e.cnt + 1)
    else
      var st := Write(e.st, key, index, VIRTUAL_INIT_BALANCE, tx.value);
      Exec(st, e.cnt + 1, e.virtuals[key := st[key]])
  }

  function ApplyTx(cfg: ChainConfig, e: Exec, index: nat, tx: Transaction): (r: Exec) {
    if Rejects(cfg, e.st, tx) then e else Credit(cfg, Debit(cfg, e, index, tx), index, tx)
  }

  /** A whole batch; each transaction's index is its position. */
  function ApplyTxs(cfg: ChainConfig, e: Exec, txs: seq<Transaction>): (r: Exec) {
    if txs == [] then e
    else
      var n := |txs| - 1;
      ApplyTx(cfg, ApplyTxs(cfg, e, txs[..n]), n, txs[n])
  }

  /** The transactions of a batch that are not skipped, in order. */
  function Accepted(cfg: ChainConfig, e: Exec, txs: seq<Transaction>): (kept: seq<Transaction>)
    ensures forall i | 0 <= i < |kept| :: kept[i] in txs
    ensures |kept| <= |txs| && (AllReal(txs) ==> AllReal(kept))
  {
    if txs == [] then []
    else
      var n := |txs| - 1;
      var before := Accepted(cfg, e, txs[..n]);
      if Rejects(cfg, ApplyTxs(cfg, e, txs[..n]).st, txs[n]) then before else before + [txs[n]]
  }

  /** The trie after a batch. */
  function Execute(cfg: ChainConfig, st: Trie, txs: seq<Transaction>): (r: Trie) {
    ApplyTxs(cfg, Exec(st, 0, map[]), txs).st
  }

  // ----- Balances -----

  /** An account that is not in the trie counts with the balance it would be opened with. */
  function Default(key: Address): (d: int) {
    if |key| == ADDRESS_LENGTH then INIT_BALANCE else VIRTUAL_INIT_BALANCE
  }

  function Balance(st: Trie, key: Address): (b: int) {
    if key in st then st[key].balance else Default(key)
  }

  predicate RealTx(tx: Transaction) {
    RealAddress(tx.sender) && RealAddress(tx.recipient)
  }

  predicate AllReal(txs: seq<Transaction>) {
    forall i | 0 <= i < |txs| :: RealTx(txs[i])
  }
}
