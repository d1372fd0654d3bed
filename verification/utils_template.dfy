/** The helper template the payment-transfer handler is built against.  Its
    `loadOrCreateLookupTable` takes no counterparty, so a table it creates
    has `interactedWith` unset.  Its application accessor is the same as
    `Utils.LoadOrCreateApplication`. */
module UtilsTemplate {
  import opened Options
  import opened Schema
  import Utils

  /** The table stored under `txHash`, or a fresh empty one recording only
      the block. */
  function LoadOrCreateLookupTable(
    tables: map<TxHash, TransfersLookupTable>,
    txHash: TxHash,
    blockNumber: nat,
    blockTimestamp: nat
  ): (r: Utils.LoadOrCreateLookupTableReturn)
    ensures r.created <==> txHash !in tables
    ensures !r.created ==> r.transfersLookupTable == tables[txHash]
    ensures r.created ==>
      && r.transfersLookupTable.blockNumber == blockNumber
      && r.transfersLookupTable.blockTimestamp == blockTimestamp
      && r.transfersLookupTable.interactedWith == None
      && r.transfersLookupTable.erc20Transfers == []
      && r.transfersLookupTable.erc721Transfers == []
      && r.transfersLookupTable.ethValue == None
  {
    if txHash in tables then Utils.LoadOrCreateLookupTableReturn(tables[txHash], false)
    else
      var created := TransfersLookupTable(blockNumber, blockTimestamp, None, [], [], None);
      Utils.LoadOrCreateLookupTableReturn(created, true)
  }

  /** The two forms agree on whether a table is created and on an existing
      table; a created table differs only in the counterparty. */
  lemma FormsAgree(
    tables: map<TxHash, TransfersLookupTable>, txHash: TxHash,
    blockNumber: nat, blockTimestamp: nat, interactedWith: Address)
    ensures var bare := LoadOrCreateLookupTable(tables, txHash, blockNumber, blockTimestamp);
            var full := Utils.LoadOrCreateLookupTable(tables, txHash, blockNumber, blockTimestamp, interactedWith);
            && bare.created == full.created
            && bare.transfersLookupTable
               == full.transfersLookupTable.(interactedWith := if bare.created then None
                                                               else full.transfersLookupTable.interactedWith)
  {
  }
}
