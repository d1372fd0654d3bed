/** The indexer as the hosting runtime drives it: one handler call per
    event, in chain order, starting from an empty store. */
module Indexer {
  import opened Options
  import opened Schema
  import opened Utils
  import opened BlockHandler
  import opened Invariants
  import ERC721Mapping
  import ERC20Mapping

  datatype Event =
    | PaymentTransfer(payment: ERC20TransferEvent)
    | AssetTransfer(asset: ERC721TransferEvent)
    | NewBlock(block: Block)

  /** The asset handler reads the transaction's recipient with `!`: an asset
      transfer emitted by a contract-creating transaction would stop it. */
  predicate Deliverable(ev: Event) {
    ev.AssetTransfer? ==> ev.asset.transaction.to.Some?
  }

  ghost predicate CountersGrow(s: Store, r: Store) {
    var before := LoadOrCreateApplication(s.app);
    var after := LoadOrCreateApplication(r.app);
    && before.nextERC20TransferID <= after.nextERC20TransferID
    && before.nextERC721TransferID <= after.nextERC721TransferID
  }

  /** Every sale of `s` is still in `r`, unchanged: a sale, once made, is
      never overwritten or deleted. */
  ghost predicate SalesKept(s: Store, r: Store) {
    forall h :: h in s.sales ==> h in r.sales && r.sales[h] == s.sales[h]
  }

  /** Dispatches one event to its handler.  The store stays valid, the
      counters never go down, and existing sales are kept. */
  function Apply(names: NameTable, s: Store, ev: Event): (r: Store)
    requires Valid(s) && Deliverable(ev)
    ensures Valid(r)
    ensures CountersGrow(s, r)
    ensures SalesKept(s, r)
  {
    match ev
    case PaymentTransfer(e) =>
      HandleERC20TransferPreservesValid(names, s, e);
      ERC20Mapping.HandleERC20Transfer(names, s, e)
    case AssetTransfer(e) =>
      HandleERC721TransferPreservesValid(names, s, e);
      ERC721Mapping.HandleERC721Transfer(names, s, e)
    case NewBlock(block) =>
      HandleBlockPreservesValid(s, block);
      HandleBlock(s, block)
  }

  /** Processes `events` in order.  Whatever the stream, every `!` load
      succeeds, the store stays valid, no sale is overwritten or deleted,
      and an id stored now stays below the counters, so no later allocation
      reuses it. */
  function Run(names: NameTable, s: Store, events: seq<Event>): (r: Store)
    requires Valid(s)
    requires forall k :: 0 <= k < |events| ==> Deliverable(events[k])
    ensures Valid(r)
    ensures CountersGrow(s, r)
    ensures SalesKept(s, r)
    ensures forall i :: i in s.erc20 ==> i < LoadOrCreateApplication(r.app).nextERC20TransferID
    ensures forall i :: i in s.erc721 ==> i < LoadOrCreateApplication(r.app).nextERC721TransferID
    decreases |events|
  {
    if |events| == 0 then s
    else Run(names, Apply(names, s, events[0]), events[1..])
  }
}
