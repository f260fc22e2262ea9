/** The tries AddAccounts and AddAccount of chain/blockchain.go build, as FetchAccounts shows them. */
module AccountLoading {
  import opened Addresses
  import opened Transactions
  import opened Ledger
  import opened LedgerLaws

  /** What FetchAccounts returns for an address. */
  function Fetched(st: Trie, addr: Address): (a: AccountData) {
    Load(st, addr, 0, INIT_BALANCE)
  }

  // ----- AddAccounts: local accounts are overwritten -----

  /** Every local address of the list has a state at its position. */
  predicate Covers(ac: seq<Address>, states: seq<AccountData>, local: set<Address>) {
    forall i | 0 <= i < |ac| && ac[i] in local :: i < |states|
  }

  function SetAccounts(st: Trie, ac: seq<Address>, states: seq<AccountData>, local: set<Address>): (r: Trie)
    requires Covers(ac, states, local)
  {
    if ac == [] then st
    else
      var n := |ac| - 1;
      var before := SetAccounts(st, ac[..n], states, local);
      if ac[n] in local then before[ac[n] := states[n]] else before
  }

  /** An address the list does not contain, or one of another shard, keeps its entry or its absence. */
  lemma {:induction false} SetAccountsKeepsOthers(
    st: Trie, ac: seq<Address>, states: seq<AccountData>, local: set<Address>, addr: Address)
    requires Covers(ac, states, local) && (addr !in ac || addr !in local)
    ensures var r := SetAccounts(st, ac, states, local);
            (addr in r <==> addr in st) && (addr in st ==> r[addr] == st[addr])
  {
    if ac != [] {
      SetAccountsKeepsOthers(st, ac[..|ac| - 1], states, local, addr);
    }
  }

  /** A listed local account ends with the state listed last for it. */
  lemma {:induction false} SetAccountsTakesLast(
    st: Trie, ac: seq<Address>, states: seq<AccountData>, local: set<Address>, last: nat)
    requires Covers(ac, states, local) && last < |ac| && ac[last] in local
    requires forall i | last < i < |ac| :: ac[i] != ac[last]
    ensures Fetched(SetAccounts(st, ac, states, local), ac[last]) == states[last]
  {
    var n := |ac| - 1;
    if last < n {
      SetAccountsTakesLast(st, ac[..n], states, local, last);
    }
  }

  // ----- AddAccount: amounts are added -----

  function CreditAccount(st: Trie, addr: Address, listed: AccountData): (r: Trie) {
    if addr !in st then st[addr := AccountData(listed.nonce, listed.balance + INIT_BALANCE)]
    else st[addr := st[addr].(balance := st[addr].balance + listed.balance)]
  }

  function CreditAccounts(st: Trie, ac: seq<Address>, states: seq<AccountData>): (r: Trie)
    requires |ac| <= |states|
  {
    if ac == [] then st
    else
      var n := |ac| - 1;
      CreditAccount(CreditAccounts(st, ac[..n], states), ac[n], states[n])
  }

  /** The sum of the amounts listed for addr. */
  function Listed(ac: seq<Address>, states: seq<AccountData>, addr: Address): (sum: int)
    requires |ac| <= |states|
  {
    if ac == [] then 0
    else
      var n := |ac| - 1;
      Listed(ac[..n], states, addr) + if ac[n] == addr then states[n].balance else 0
  }

  /** Duplicates included, every fetched balance grows by exactly its listed amounts, whether it existed or not. */
  lemma {:induction false} CreditAccountsAddsListed(
    st: Trie, ac: seq<Address>, states: seq<AccountData>, addr: Address)
    requires |ac| <= |states|
    ensures Fetched(CreditAccounts(st, ac, states), addr).balance
         == Fetched(st, addr).balance + Listed(ac, states, addr)
    ensures addr !in ac && addr !in st ==> addr !in CreditAccounts(st, ac, states)
  {
    if ac != [] {
      CreditAccountsAddsListed(st, ac[..|ac| - 1], states, addr);
    }
  }

  /** An account that existed keeps its nonce; a new one has the nonce listed first for it. */
  lemma {:induction false} CreditAccountsKeepsNonce(
    st: Trie, ac: seq<Address>, states: seq<AccountData>, addr: Address, first: nat)
    requires |ac| <= |states|
    requires addr !in st ==> first < |ac| && ac[first] == addr && forall i | 0 <= i < first :: ac[i] != addr
    ensures addr in CreditAccounts(st, ac, states)
    ensures CreditAccounts(st, ac, states)[addr].nonce == if addr in st then st[addr].nonce else states[first].nonce
  {
    if ac != [] {
      var n := |ac| - 1;
      if addr in st || first < n {
        CreditAccountsKeepsNonce(st, ac[..n], states, addr, first);
      } else {
        assert addr !in ac[..n];
        CreditAccountsAddsListed(st, ac[..n], states, addr);
      }
    }
  }

  // ----- Reachable states -----

  /** Everything that replaces the state trie. */
  datatype LedgerOp =
    | Batch(txs: seq<Transaction>)
    | Set(ac: seq<Address>, states: seq<AccountData>, local: set<Address>)
    | Add(ac: seq<Address>, states: seq<AccountData>)

  predicate NonNegativeStates(states: seq<AccountData>) {
    forall i | 0 <= i < |states| :: states[i].balance >= 0
  }

  /** Values and loaded balances are not negative. */
  predicate FitOp(op: LedgerOp) {
    match op
    case Batch(txs) => NonNegativeValues(txs)
    case Set(ac, states, local) => Covers(ac, states, local) && NonNegativeStates(states)
    case Add(ac, states) => |ac| <= |states| && NonNegativeStates(states)
  }

  function ApplyOp(cfg: ChainConfig, st: Trie, op: LedgerOp): (r: Trie)
    requires FitOp(op)
  {
    match op
    case Batch(txs) => Execute(cfg, st, txs)
    case Set(ac, states, local) => SetAccounts(st, ac, states, local)
    case Add(ac, states) => CreditAccounts(st, ac, states)
  }

  function ApplyOps(cfg: ChainConfig, ops: seq<LedgerOp>): (st: Trie)
    requires forall i | 0 <= i < |ops| :: FitOp(ops[i])
  {
    if ops == [] then map[] else ApplyOp(cfg, ApplyOps(cfg, ops[..|ops| - 1]), ops[|ops| - 1])
  }

  lemma {:induction false} SettingStaysNonNegative(
    st: Trie, ac: seq<Address>, states: seq<AccountData>, local: set<Address>)
    requires Covers(ac, states, local) && NonNegativeStates(states) && NonNegative(st)
    ensures NonNegative(SetAccounts(st, ac, states, local))
  {
    if ac != [] {
      SettingStaysNonNegative(st, ac[..|ac| - 1], states, local);
    }
  }

  lemma {:induction false} AddingStaysNonNegative(st: Trie, ac: seq<Address>, states: seq<AccountData>)
    requires |ac| <= |states| && NonNegativeStates(states) && NonNegative(st)
    ensures NonNegative(CreditAccounts(st, ac, states))
  {
    if ac != [] {
      AddingStaysNonNegative(st, ac[..|ac| - 1], states);
    }
  }

  /** No balance is negative in any state reached by batches and loaded accounts, in any order. */
  lemma {:induction false} ReachableBalancesNonNegative(cfg: ChainConfig, ops: seq<LedgerOp>)
    requires forall i | 0 <= i < |ops| :: FitOp(ops[i])
    ensures NonNegative(ApplyOps(cfg, ops))
  {
    if ops != [] {
      hide NonNegative, ApplyTxs, NonNegativeValues, NonNegativeStates;
      var before := ApplyOps(cfg, ops[..|ops| - 1]);
      ReachableBalancesNonNegative(cfg, ops[..|ops| - 1]);
      match ops[|ops| - 1]
      case Batch(txs) => BalancesStayNonNegative(cfg, Exec(before, 0, map[]), txs);
      case Set(ac, states, local) => SettingStaysNonNegative(before, ac, states, local);
      case Add(ac, states) => AddingStaysNonNegative(before, ac, states);
    }
  }
}
