/** The entities the indexer persists and the events it consumes.

    Every persisted entity lives in one keyed `Store`.  An entity's id is its
    key: a `TransfersLookupTable` and its `NFTSale` are keyed by the
    transaction hash, and the transfer records by the counter value they were
    allocated (the source stores `counter.toString()`, assumed injective). */
module Schema {
  import opened Options

  /** Lower-case hexadecimal account or contract address. */
  type Address = string

  /** Hexadecimal transaction hash; the key of lookup tables and sales. */
  type TxHash = string

  /** Allocated value of one of the two transfer counters. */
  type TransferId = nat

  /** The process-wide singleton stored under the key "app". */
  datatype Application = Application(
    nextERC20TransferID: nat,
    nextERC721TransferID: nat,
    transfersLookupTablesToProcess: seq<TxHash>)

  /** A payment transfer (fungible token). */
  datatype ERC20Transfer = ERC20Transfer(
    contractAddress: Address,
    contractName: string,
    from: Address,
    to: Address,
    value: nat)

  /** An asset transfer (non-fungible token). */
  datatype ERC721Transfer = ERC721Transfer(
    contractAddress: Address,
    contractName: string,
    from: Address,
    to: Address,
    tokenId: nat)

  /** The per-transaction accumulator.  `interactedWith` is absent when the
      table was created by a payment transfer; `ethValue` is only set on the
      native-currency path. */
  datatype TransfersLookupTable = TransfersLookupTable(
    blockNumber: nat,
    blockTimestamp: nat,
    interactedWith: Option<Address>,
    erc20Transfers: seq<TransferId>,
    erc721Transfers: seq<TransferId>,
    ethValue: Option<nat>)

  datatype NFTSale = NFTSale(
    blockNumber: nat,
    blockTimestamp: nat,
    interactedWith: Option<Address>,
    buyer: Address,
    seller: Address,
    paymentTokenAddress: Address,
    paymentTokenName: string,
    transfersLookupTable: TxHash)

  /** The keyed store.  `app` is the entity under the key "app", if saved. */
  datatype Store = Store(
    app: Option<Application>,
    erc20: map<TransferId, ERC20Transfer>,
    erc721: map<TransferId, ERC721Transfer>,
    tables: map<TxHash, TransfersLookupTable>,
    sales: map<TxHash, NFTSale>)

  const EmptyStore := Store(None, map[], map[], map[], map[])

  datatype Block = Block(number: nat, timestamp: nat)

  /** The transaction an event was emitted in; `to` is absent for a contract
      creation. */
  datatype Transaction = Transaction(hash: TxHash, to: Option<Address>, value: nat)

  /** `Transfer(from, to, tokenId)` emitted by a monitored ERC721 contract. */
  datatype ERC721TransferEvent = ERC721TransferEvent(
    address: Address,
    from: Address,
    to: Address,
    tokenId: nat,
    transaction: Transaction,
    block: Block)

  /** `Transfer(from, to, value)` emitted by a monitored ERC20 contract. */
  datatype ERC20TransferEvent = ERC20TransferEvent(
    address: Address,
    from: Address,
    to: Address,
    value: nat,
    transaction: Transaction,
    block: Block)

  ghost predicate NoDuplicates<T>(xs: seq<T>) {
    forall i, j :: 0 <= i < j < |xs| ==> xs[i] != xs[j]
  }

  /** The elements of a list of ids, as a set. */
  function Elements<T>(xs: seq<T>): set<T> {
    set x | x in xs
  }
}
