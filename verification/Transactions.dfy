/** core/transaction.go and params: transactions and the configuration of a node. */
module Transactions {
  import opened Addresses
  import opened Bytes

  datatype Transaction = Transaction(
    sender: Address, recipient: Address, nonce: nat, value: int, txHash: seq<Byte>, time: nat,
    relayed: bool, hasBroker: bool, senderIsBroker: bool,
    originalSender: Address, finalRecipient: Address, rawTxHash: seq<Byte>)

  /** mapInfo is the literal account table every ledger update starts from. */
  datatype ChainConfig = ChainConfig(
    shardID: nat, nodeID: nat, blockSize: nat, shardNum: Positive, mapInfo: map<Address, nat>)

  const INIT_BALANCE := 1_000_000_000_000_000_000_000_000_000_000_000_000_000_000_000
  const VIRTUAL_INIT_BALANCE := 0
}
