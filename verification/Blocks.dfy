/**
 * core/block.go. Hashes and trie roots are injective by construction: a hash carries its header, a state root its
 * trie, a transaction root its transaction tree.
 */
module Blocks {
  import opened Bytes
  import opened Transactions
  import opened Ledger

  datatype StateRoot = StateRoot(content: Trie)

  datatype TxRoot = TxRoot(content: map<seq<Byte>, Transaction>)

  /** NoHash is the absent parent of the genesis block. */
  datatype BlockHash = NoHash | HashOf(header: BlockHeader)

  datatype BlockHeader = BlockHeader(
    parentBlockHash: BlockHash, stateRoot: StateRoot, txRoot: TxRoot, number: nat, time: nat, miner: nat, txNum: nat)

  datatype Block = Block(header: BlockHeader, body: seq<Transaction>, hash: BlockHash)

  const EMPTY_ROOT := StateRoot(map[])

  /** The transactions of a block by transaction hash; a later one replaces an earlier one with the same hash. */
  function TxTree(txs: seq<Transaction>): (tree: map<seq<Byte>, Transaction>) {
    if txs == [] then map[] else TxTree(txs[..|txs| - 1])[txs[|txs| - 1].txHash := txs[|txs| - 1]]
  }

  function GetTxTreeRoot(txs: seq<Transaction>): (root: TxRoot) {
    TxRoot(TxTree(txs))
  }

  function Sealed(header: BlockHeader, body: seq<Transaction>): (b: Block) {
    Block(header, body, HashOf(header))
  }

  predicate WellHashed(b: Block) {
    b.hash == HashOf(b.header)
  }

  /** NewGenisisBlock. */
  function Genesis(): (b: Block) {
    Sealed(BlockHeader(NoHash, EMPTY_ROOT, GetTxTreeRoot([]), 0, 0, 0, 0), [])
  }

  lemma GenesisIsEmpty()
    ensures Genesis().header == BlockHeader(NoHash, StateRoot(map[]), TxRoot(map[]), 0, 0, 0, 0)
    ensures Genesis().body == [] && Genesis().hash == HashOf(Genesis().header)
  {
  }

  /** The block GenerateBlock, AddAccounts and AddAccount put on top of parent. */
  function Child(parent: Block, root: StateRoot, body: seq<Transaction>, time: nat, txNum: nat): (b: Block) {
    Sealed(
      BlockHeader(parent.hash, root, GetTxTreeRoot(body), parent.header.number + 1, time, 0, txNum), body)
  }

  /** The checks of IsValidBlock. */
  predicate PassesIsValidBlock(current: Block, b: Block) {
    b.header.parentBlockHash == current.hash && b.header.txRoot == GetTxTreeRoot(b.body)
  }

  /** b may be stored on top of current: its parent and height are right. */
  predicate Extends(current: Block, b: Block) {
    b.header.parentBlockHash == current.hash && b.header.number == current.header.number + 1
  }

  /** The header's state root is what executing the body on the parent's state gives. */
  predicate Honest(cfg: ChainConfig, parent: Block, b: Block) {
    b.header.stateRoot == StateRoot(Execute(cfg, parent.header.stateRoot.content, b.body))
  }
}
