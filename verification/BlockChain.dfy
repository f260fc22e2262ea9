/** chain/blockchain.go: a node that executes, generates and stores blocks. */
module BlockChains {
  import opened Wrappers
  import opened Addresses
  import opened Transactions
  import opened Ledger
  import opened LedgerLaws
  import opened Accounts
  import opened Blocks
  import opened Storage
  import opened GoSlices
  import opened TxPools
  import opened AccountLoading
  import opened ChainStates

  datatype BlockError = WrongParent | WrongTxRoot

  lemma NoTxs(cfg: ChainConfig, e: Exec, txs: seq<Transaction>)
    requires txs == []
    ensures ApplyTxs(cfg, e, txs) == e && Accepted(cfg, e, txs) == []
  {
  }

  /** A batch commits a trie exactly when it writes, and it does not depend on AllStateMapTx. */
  lemma BatchOutcome(cfg: ChainConfig, current: Block, e: Exec, txs: seq<Transaction>)
    requires e.st == current.header.stateRoot.content && e.cnt == 0
    ensures var after := ApplyTxs(cfg, e, txs);
            RootAfter(cfg, current, txs) == StateRoot(after.st) &&
            NewTrie(cfg, current, txs) == if after.cnt == 0 then None else Some(StateRoot(after.st))
    ensures ApplyTxs(cfg, e, txs).cnt == 0 ==> ApplyTxs(cfg, e, txs) == e
    ensures txs == [] ==> ApplyTxs(cfg, e, txs) == e
  {
    hide ApplyTx;
    ReplicasExecuteAlike(cfg, cfg, e, Exec(e.st, 0, map[]), txs);
    WriteCounter(cfg, e, txs);
  }

  lemma AddedWithoutTxs(cfg: ChainConfig, s: ChainState, b: Block)
    requires b.body == []
    ensures Added(cfg, s, b) == s.(disk := Store(s.disk, b), current := b,
              partitionMap := if Foreign(cfg, b) then cfg.mapInfo else s.partitionMap)
  {
  }

  lemma ApplyTxsNext(cfg: ChainConfig, e: Exec, txs: seq<Transaction>, i: nat)
    requires i < |txs|
    ensures ApplyTxs(cfg, e, txs[..i + 1]) == ApplyTx(cfg, ApplyTxs(cfg, e, txs[..i]), i, txs[i])
  {
    assert txs[..i + 1][..i] == txs[..i];
  }

  lemma LoadBalance(st: Trie, key: Address, i: nat, j: nat, opening: int)
    ensures Load(st, key, i, opening).balance == Load(st, key, j, opening).balance
  {
  }

  lemma WriteIs(st: Trie, key: Address, index: nat, opening: int, change: int, a: AccountData)
    requires a == var l := Load(st, key, index, opening); l.(balance := l.balance + change)
    ensures Write(st, key, index, opening, change) == st[key := a]
  {
  }

  class BlockChain {
    const cfg: ChainConfig
    const disk: Disk
    const Txpool: TxPool

    /** Roots whose nodes are in the memory of the trie database; a crash loses them. */
    var memory: set<StateRoot>
    var CurrentBlock: Block
    var PartitionMap: map<Address, nat>
    var AllStateMapTx: map<Address, AccountState>
    var Flag: bool

    /** The newest stored block is the current one. Its state trie need not exist. */
    ghost predicate Valid()
      reads this`CurrentBlock, disk
    {
      disk.Valid() && disk.newestBlockHash.Some? && disk.newestBlockHash.value in disk.blockBucket &&
      disk.blockBucket[disk.newestBlockHash.value] == CurrentBlock
    }

    /** The account states AllStateMapTx points to. */
    ghost function VirtualStates(): (m: Trie)
      reads this`AllStateMapTx, AllStateMapTx.Values
    {
      map key | key in AllStateMapTx :: AllStateMapTx[key].Encode()
    }

    ghost function State(): (s: ChainState)
      reads this, disk, AllStateMapTx.Values
    {
      ChainState(disk.State(), memory, CurrentBlock, PartitionMap, VirtualStates(), Flag)
    }

    /** If there is anything to execute, the state trie is there, and the addresses parse. */
    predicate CanExecute(txs: seq<Transaction>)
      reads this`memory, this`CurrentBlock, disk
    {
      var root := CurrentBlock.header.stateRoot;
      txs == [] ||
      ((root == EMPTY_ROOT || root in memory || root in disk.committedTries) && AllSurvive(cfg, root.content, txs))
    }

    /** NewBlockChain: resumes on the newest stored block, or stores the genesis block. It panics on other disks. */
    constructor (cfg: ChainConfig, disk: Disk)
      requires disk.Valid() && Startable(disk.State())
      modifies disk
      ensures this.cfg == cfg && this.disk == disk && fresh(Txpool) && fresh(Txpool.Arrays())
      ensures Valid() && State() == Started(old(disk.State()))
      ensures memory == {} && PartitionMap == map[] && AllStateMapTx == map[] && !Flag
      ensures CurrentBlock == match old(disk.newestBlockHash)
                              case None => Genesis()
                              case Some(h) => old(disk.blockBucket)[h]
      ensures disk.writes == old(disk.writes) + if old(disk.newestBlockHash).None? then BlockWrites(Genesis()) else []
      ensures Txpool.Valid() && Txpool.Queue() == []
    {
      this.cfg, this.disk := cfg, disk;
      Txpool := new TxPool();
      memory, PartitionMap, AllStateMapTx, Flag := {}, map[], map[], false;
      CurrentBlock := Genesis();
      new;
      var curHash := disk.GetNewestBlockHash();
      if curHash.None? {
        AddGenisisBlock(Genesis());
      } else {
        CurrentBlock := disk.GetBlock(curHash.value).value;
      }
    }

    method AddGenisisBlock(gb: Block)
      requires disk.Valid()
      modifies this`CurrentBlock, disk
      ensures Valid() && State() == old(State()).(disk := Store(old(disk.State()), gb), current := gb)
      ensures disk.writes == old(disk.writes) + BlockWrites(gb)
    {
      disk.AddBlock(gb);
      var newestHash := disk.GetNewestBlockHash();
      CurrentBlock := disk.GetBlock(newestHash.value).value;
    }

    // ----- Partition map -----

    method Update_PartitionMap(key: Address, val: nat)
      modifies this`PartitionMap
      ensures PartitionMap == old(PartitionMap)[key := val]
    {
      PartitionMap := PartitionMap[key := val];
    }

    function Get_PartitionMap(key: Address): (shard: nat)
      requires key in PartitionMap || Shardable(key)
      reads this`PartitionMap
    {
      if key !in PartitionMap then Addr2Shard(key, cfg.shardNum) else PartitionMap[key]
    }

    // ----- Executing transactions -----

    /**
     * The root is that of the ledger function, whatever the partition map was; the trie is committed exactly when
     * some transaction is accepted. A missing state trie makes it panic unless there is nothing to execute.
     */
    method GetUpdateStatusTrie(txs: seq<Transaction>) returns (rt: StateRoot)
      requires Valid() && CanExecute(txs)
      modifies this`PartitionMap, this`AllStateMapTx, this`Flag, this`memory, disk
      ensures Valid() && State() == Executing(cfg, old(State()), txs)
      ensures disk.writes == old(disk.writes) + CommitWrites(NewTrie(cfg, CurrentBlock, txs))
      ensures rt == RootAfter(cfg, CurrentBlock, txs)
    {
      hide ApplyTxs, ApplyWrites, VirtualStates, NewTrie, RootAfter;
      ghost var e := State().Ledger();
      PartitionMap := cfg.mapInfo;
      BatchOutcome(cfg, CurrentBlock, e, txs);
      if |txs| == 0 {
        return CurrentBlock.header.stateRoot;
      }
      var st, cnt := ProcessTxs(txs, CurrentBlock.header.stateRoot.content);
      if cnt == 0 {
        return CurrentBlock.header.stateRoot;
      }
      rt := StateRoot(st);
      memory := memory + {rt};
      disk.Commit(rt);
      Flag := true;
    }

    /** The loop over a batch. */
    method ProcessTxs(txs: seq<Transaction>, st0: Trie) returns (st: Trie, cnt: nat)
      requires PartitionMap == cfg.mapInfo && AllSurvive(cfg, st0, txs)
      modifies this`AllStateMapTx
      ensures Exec(st, cnt, VirtualStates()) == ApplyTxs(cfg, old(Exec(st0, 0, VirtualStates())), txs)
    {
      hide ApplyTx, ApplyTxs, VirtualStates;
      ghost var e := Exec(st0, 0, VirtualStates());
      NoTxs(cfg, e, txs[..0]);
      st, cnt := st0, 0;
      for i := 0 to |txs|
        invariant Exec(st, cnt, VirtualStates()) == ApplyTxs(cfg, e, txs[..i])
      {
        ApplyTxsNext(cfg, e, txs, i);
        ReplicasExecuteAlike(cfg, cfg, e, Exec(st0, 0, map[]), txs[..i]);
        assert Survives(cfg, Execute(cfg, st0, txs[..i]), txs[i]);
        st, cnt := ProcessTx(i, txs[i], st, cnt);
      }
      assert txs[..|txs|] == txs;
    }

    /** The body of the loop over a batch. */
    method ProcessTx(i: nat, tx: Transaction, st0: Trie, cnt0: nat) returns (st: Trie, cnt: nat)
      requires PartitionMap == cfg.mapInfo && Survives(cfg, st0, tx)
      modifies this`AllStateMapTx
      ensures Exec(st, cnt, VirtualStates()) == ApplyTx(cfg, old(Exec(st0, cnt0, VirtualStates())), i, tx)
    {
      hide Write, Load, Credit;
      st, cnt := st0, cnt0;
      if !tx.relayed && Get_PartitionMap(tx.sender) == cfg.shardID {
        var s_state := AccountState.Read(st, tx.sender, i, INIT_BALANCE);
        LoadBalance(st, tx.sender, i, 0, INIT_BALANCE);
        if s_state.Balance < tx.value {
          return;
        }
        var ok := s_state.Deduct(tx.value);
        assert ok;
        WriteIs(st, tx.sender, i, INIT_BALANCE, -tx.value, s_state.Encode());
        st := st[tx.sender := s_state.Encode()];
        cnt := cnt + 1;
      }
      st, cnt := CreditRecipient(i, tx, st, cnt);
    }

    /** The second half of that body: the recipient's account, or its virtual account for the sender's shard. */
    method CreditRecipient(i: nat, tx: Transaction, st0: Trie, cnt0: nat) returns (st: Trie, cnt: nat)
      requires PartitionMap == cfg.mapInfo && Processable(cfg, tx)
      modifies this`AllStateMapTx
      ensures Exec(st, cnt, VirtualStates()) == Credit(cfg, old(Exec(st0, cnt0, VirtualStates())), i, tx)
    {
      hide Write, Load, Addr2Shard, Shardable, AddrVirtualAccount;
      var r_state;
      if Get_PartitionMap(tx.recipient) == cfg.shardID || tx.hasBroker {
        st, r_state := DepositTo(st0, tx.recipient, i, INIT_BALANCE, tx.value);
      } else {
        var virtualRecipient := AddrVirtualAccount(tx.recipient, Addr2Shard(tx.sender, cfg.shardNum));
        st, r_state := DepositTo(st0, virtualRecipient, i, VIRTUAL_INIT_BALANCE, tx.value);
        AllStateMapTx := AllStateMapTx[virtualRecipient := r_state];
      }
      cnt := cnt0 + 1;
    }

    /** Reading an account, or opening it, crediting it and writing it back. */
    static method DepositTo(st0: Trie, key: Address, index: nat, opening: int, value: int)
      returns (st: Trie, r_state: AccountState)
      ensures st == Write(st0, key, index, opening, value)
      ensures fresh(r_state) && r_state.Encode() == st[key]
    {
      r_state := AccountState.Read(st0, key, index, opening);
      r_state.Deposit(value);
      WriteIs(st0, key, index, opening, value, r_state.Encode());
      st := st0[key := r_state.Encode()];
    }

    // ----- Blocks -----

    method GenerateBlock(now: nat) returns (b: Block)
      requires Valid() && Txpool.Valid() && CanExecute(Front(Txpool.Queue(), cfg.blockSize))
      modifies this`PartitionMap, this`AllStateMapTx, this`Flag, this`memory, disk, Txpool`TxQueue, Txpool`packed
      ensures Valid() && Txpool.Valid()
      ensures b.body == Front(old(Txpool.Queue()), cfg.blockSize) && b.body + Txpool.Queue() == old(Txpool.Queue())
      ensures Txpool.Batches() == old(Txpool.Batches()) + [b.body]
      ensures Txpool.TxQueue.arr == old(Txpool.TxQueue.arr) && Txpool.Arrays() <= old(Txpool.Arrays())
      ensures b == NextBlock(cfg, CurrentBlock, b.body, now) && b.hash == HashOf(b.header)
      ensures b.header == BlockHeader(CurrentBlock.hash, RootAfter(cfg, CurrentBlock, b.body), GetTxTreeRoot(b.body),
                            CurrentBlock.header.number + 1, now, 0, |b.body|)
      ensures State() == Executing(cfg, old(State()), b.body)
      ensures disk.writes == old(disk.writes) + CommitWrites(NewTrie(cfg, CurrentBlock, b.body))
      ensures Honest(cfg, CurrentBlock, b) && Extends(CurrentBlock, b) && PassesIsValidBlock(CurrentBlock, b)
    {
      hide ApplyTxs, Accepted, ApplyWrites, Flatten, ContentsOf, LaidOut, Front;
      hide Executing, NewTrie;
      var batch := Txpool.PackTxs(cfg.blockSize);
      var txs := batch.Contents();
      var rt := GetUpdateStatusTrie(txs);
      b := Child(CurrentBlock, rt, txs, now, |txs|);
    }

    /**
     * A block of the wrong height is dropped. Any other is stored, whatever its state root; the node's own blocks are
     * not executed again, and the root others are executed to is only printed.
     */
    method AddBlock(b: Block) returns (printed: Option<StateRoot>)
      requires Valid()
      requires RightHeight(CurrentBlock, b) && Foreign(cfg, b) ==> CanExecute(b.body)
      modifies this`CurrentBlock, this`PartitionMap, this`AllStateMapTx, this`Flag, this`memory, disk
      ensures Valid()
      ensures b.header.number != old(CurrentBlock).header.number + 1 ==>
                unchanged(this) && unchanged(disk) && printed == None
      ensures b.header.number == old(CurrentBlock).header.number + 1 ==>
                CurrentBlock == b && (printed.Some? <==> b.header.miner != cfg.nodeID)
      ensures RightHeight(old(CurrentBlock), b) ==>
                State() == Added(cfg, old(State()), b) &&
                disk.writes == old(disk.writes) + CommitWrites(TrieOf(cfg, old(CurrentBlock), b)) + BlockWrites(b) &&
                printed == if Foreign(cfg, b) then Some(RootAfter(cfg, old(CurrentBlock), b.body)) else None
      ensures RightHeight(old(CurrentBlock), b) ==>
                var root := b.header.stateRoot;
                var executed := TrieOf(cfg, old(CurrentBlock), b) == Some(root);
                (State().Opens(root) <==> old(State().Opens(root)) || executed) &&
                (Startable(disk.State()) <==> old(Durable(disk.State(), root)) || executed)
    {
      hide ApplyTxs, Accepted, ApplyWrites, Executing, NewTrie, RootAfter;
      printed := None;
      if b.header.number != CurrentBlock.header.number + 1 {
        return;
      }
      AddedOpensExactly(cfg, State(), b);
      if b.header.miner != cfg.nodeID {
        var rt := GetUpdateStatusTrie(b.body);
        printed := Some(rt);
      }
      CurrentBlock := b;
      disk.AddBlock(b);
    }

    // ----- Loading accounts -----

    method FetchAccounts(addrs: seq<Address>) returns (res: seq<AccountData>)
      requires Valid() && State().Opens(CurrentBlock.header.stateRoot)
      ensures |res| == |addrs|
      ensures forall i | 0 <= i < |addrs| ::
                var st := CurrentBlock.header.stateRoot.content;
                res[i] == Fetched(st, addrs[i]) ==
                  if addrs[i] in st then st[addrs[i]] else AccountData(0, INIT_BALANCE)
    {
      res := [];
      var st := CurrentBlock.header.stateRoot.content;
      for i := 0 to |addrs|
        invariant |res| == i && forall j | 0 <= j < i :: res[j] == Fetched(st, addrs[j])
      {
        var state_a := AccountState.Read(st, addrs[i], 0, INIT_BALANCE);
        res := res + [state_a.Encode()];
      }
    }

    /** The addresses of the list that the current partition map assigns to this shard. */
    ghost function LocalOf(ac: seq<Address>): (local: set<Address>)
      requires forall i | 0 <= i < |ac| :: ac[i] in PartitionMap || Shardable(ac[i])
      reads this`PartitionMap
    {
      set i | 0 <= i < |ac| &&
              cfg.shardID
                == if ac[i] in PartitionMap then PartitionMap[ac[i]] else Addr2Shard(ac[i], cfg.shardNum) :: ac[i]
    }

    /** The loop of AddAccounts. */
    method SetAll(st0: Trie, ac: seq<Address>, states: seq<AccountData>) returns (st: Trie)
      requires forall i | 0 <= i < |ac| :: ac[i] in PartitionMap || Shardable(ac[i])
      requires Covers(ac, states, LocalOf(ac))
      ensures st == SetAccounts(st0, ac, states, LocalOf(ac))
    {
      st := st0;
      ghost var local := LocalOf(ac);
      for i := 0 to |ac|
        invariant st == SetAccounts(st0, ac[..i], states, local)
      {
        assert ac[..i + 1][..i] == ac[..i];
        if Get_PartitionMap(ac[i]) == cfg.shardID {
          assert ac[i] in local;
          st := st[ac[i] := states[i]];
        }
      }
      assert ac[..|ac|] == ac;
    }

    /** The new trie is left in memory; only the old root is committed. */
    method AddAccounts(ac: seq<Address>, states: seq<AccountData>)
      requires Valid() && forall i | 0 <= i < |ac| :: ac[i] in PartitionMap || Shardable(ac[i])
      requires Covers(ac, states, LocalOf(ac))
      requires ac == [] || State().Opens(CurrentBlock.header.stateRoot)
      modifies this`CurrentBlock, this`memory, disk
      ensures Valid()
      ensures var st := old(CurrentBlock).header.stateRoot.content;
              var loaded := SetAccounts(st, ac, states, LocalOf(ac));
              ac == [] || loaded != st ==>
                State() == Loaded(old(State()), ac, loaded) &&
                (Startable(disk.State()) <==> old(Durable(disk.State(), StateRoot(loaded))))
    {
      hide VirtualStates, TxTree, LocalOf, Covers;
      var rt := CurrentBlock.header.stateRoot;
      ghost var loaded := SetAccounts(rt.content, ac, states, LocalOf(ac));
      if ac == [] || loaded != rt.content {
        LoadedRestartsExactly(State(), ac, loaded);
      }
      if |ac| != 0 {
        var st := SetAll(rt.content, ac, states);
        rt := CommitOld(rt, st);
      }
      CurrentBlock := Child(CurrentBlock, rt, [], 0, 0);
      disk.AddBlock(CurrentBlock);
    }

    /** st.Commit, triedb.Update with the new trie, then triedb.Commit of the old root, a no-op unless in memory. */
    method CommitOld(rt: StateRoot, st: Trie) returns (rrt: StateRoot)
      requires disk.Valid()
      modifies this`memory, disk
      ensures disk.Valid() && rrt == StateRoot(st)
      ensures State() == old(State()).(memory := old(memory) + {rrt}, disk := old(disk.State()).(committed :=
                old(disk.committedTries) + if rt in old(memory) then {rt} else {}))
    {
      rrt := StateRoot(st);
      if rt in memory {
        disk.Commit(rt);
      }
      memory := memory + {rrt};
    }

    /** The body of AddAccount's loop. */
    static method CreditOne(st: Trie, addr: Address, listed: AccountData) returns (r: Trie)
      ensures r == CreditAccount(st, addr, listed)
    {
      if addr !in st {
        return st[addr := AccountData(listed.nonce, listed.balance + INIT_BALANCE)];
      }
      var r_state := new AccountState(st[addr]);
      r_state.Deposit(listed.balance);
      r := st[addr := r_state.Encode()];
    }

    /** That loop. */
    static method CreditAll(st0: Trie, ac: seq<Address>, states: seq<AccountData>) returns (st: Trie)
      requires |ac| <= |states|
      ensures st == CreditAccounts(st0, ac, states)
    {
      st := st0;
      for i := 0 to |ac|
        invariant st == CreditAccounts(st0, ac[..i], states)
      {
        assert ac[..i + 1][..i] == ac[..i];
        st := CreditOne(st, ac[i], states[i]);
      }
      assert ac[..|ac|] == ac;
    }

    /** As AddAccounts, but the amounts are added, whatever the shard, and the block goes through AddBlock. */
    method AddAccount(ac: seq<Address>, states: seq<AccountData>)
      requires Valid() && |ac| <= |states|
      requires ac == [] || State().Opens(CurrentBlock.header.stateRoot)
      modifies this, disk
      ensures Valid()
      ensures var st := old(CurrentBlock).header.stateRoot.content;
              var loaded := CreditAccounts(st, ac, states);
              ac == [] || loaded != st ==>
                State() == Loaded(old(State()), ac, loaded)
                             .(partitionMap := if cfg.nodeID == 0 then old(PartitionMap) else cfg.mapInfo) &&
                (Startable(disk.State()) <==> old(Durable(disk.State(), StateRoot(loaded))))
    {
      hide ApplyTxs, ApplyWrites, Execute, TxTree, VirtualStates, Added, Store;
      var rt := CurrentBlock.header.stateRoot;
      ghost var loaded := CreditAccounts(rt.content, ac, states);
      if ac == [] || loaded != rt.content {
        LoadedRestartsExactly(State(), ac, loaded);
      }
      if |ac| != 0 {
        var st := CreditAll(rt.content, ac, states);
        rt := CommitOld(rt, st);
      }
      var b := Child(CurrentBlock, rt, [], 0, 0);
      AddedWithoutTxs(cfg, State(), b);
      var _ := AddBlock(b);
    }

    function IsValidBlock(b: Block): (error: Option<BlockError>)
      reads this`CurrentBlock
      ensures error.None? <==> PassesIsValidBlock(CurrentBlock, b)
      ensures error == Some(WrongParent) <==> b.header.parentBlockHash != CurrentBlock.hash
    {
      if b.header.parentBlockHash != CurrentBlock.hash then Some(WrongParent)
      else if GetTxTreeRoot(b.body) != b.header.txRoot then Some(WrongTxRoot)
      else None
    }
  }

  method NewNode(cfg: ChainConfig) returns (node: BlockChain)
    ensures fresh(node) && fresh(node.disk) && node.Valid() && node.cfg == cfg && node.PartitionMap == map[]
    ensures node.CurrentBlock == Genesis() && node.disk.committedTries == {}
  {
    var disk := new Disk(BLANK);
    node := new BlockChain(cfg, disk);
  }

  /** A new node that loads one local account shows it, but cannot be started again. */
  method LoadingIsLost(cfg: ChainConfig, addr: Address, a: AccountData) returns (node: BlockChain)
    requires Shardable(addr) && Addr2Shard(addr, cfg.shardNum) == cfg.shardID
    ensures node.Valid() && !Startable(node.disk.State())
    ensures Fetched(node.CurrentBlock.header.stateRoot.content, addr) == a
  {
    node := NewNode(cfg);
    assert [addr][0] == addr && addr in node.LocalOf([addr]);
    LoadsOne(node.LocalOf([addr]), addr, a);
    hide ParseHex, TxTree, SetAccounts, Covers, BlockChain.VirtualStates, BlockChain.LocalOf;
    node.AddAccounts([addr], [a]);
  }

  lemma LoadsOne(local: set<Address>, addr: Address, a: AccountData)
    requires addr in local
    ensures Covers([addr], [a], local) && SetAccounts(map[], [addr], [a], local) == map[addr := a]
    ensures addr in map[addr := a]
  {
    assert [addr][..0] == [] && SetAccounts(map[], [], [a], local) == map[];
  }
}
