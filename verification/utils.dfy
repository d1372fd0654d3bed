/** Helpers shared by the handlers: contract-name resolution and the
    load-or-create accessors for the application singleton and for lookup
    tables.  None of them writes to the store; the callers persist. */
module Utils {
  import opened Options
  import opened Schema

  /** One configured constant: the name a contract address resolves to. */
  datatype NamedAddress = NamedAddress(name: string, address: Address)

  /** The configured constants in declaration order; addresses are already
      lower-cased. */
  type NameTable = seq<NamedAddress>

  const UNKNOWN := "UNKNOWN"

  /** The human-readable name of `contract`: the name of the first configured
      constant equal to it, or "UNKNOWN" when none is. */
  function AddressToContractName(names: NameTable, contract: Address): (r: string)
    ensures (forall k :: 0 <= k < |names| ==> names[k].address != contract) ==> r == UNKNOWN
    ensures forall k :: 0 <= k < |names| && names[k].address == contract
                        && (forall j :: 0 <= j < k ==> names[j].address != contract)
                        ==> r == names[k].name
    decreases |names|
  {
    if |names| == 0 then UNKNOWN
    else if names[0].address == contract then names[0].name
    else
      var r := AddressToContractName(names[1..], contract);
      assert forall k :: 1 <= k < |names| ==> names[1..][k - 1] == names[k];
      r
  }

  const InitialApplication := Application(0, 0, [])

  /** The stored application, or a fresh one with both counters at zero and
      nothing pending. */
  function LoadOrCreateApplication(stored: Option<Application>): (app: Application)
    ensures stored.Some? ==> app == stored.value
    ensures stored.None? ==> app.nextERC20TransferID == 0 && app.nextERC721TransferID == 0
                             && app.transfersLookupTablesToProcess == []
  {
    match stored
    case Some(a) => a
    case None => InitialApplication
  }

  datatype LoadOrCreateLookupTableReturn =
    LoadOrCreateLookupTableReturn(transfersLookupTable: TransfersLookupTable, created: bool)

  /** The table stored under `txHash`, or a fresh empty one recording the
      block and the transaction counterparty.  `created` tells which. */
  function LoadOrCreateLookupTable(
    tables: map<TxHash, TransfersLookupTable>,
    txHash: TxHash,
    blockNumber: nat,
    blockTimestamp: nat,
    interactedWith: Address
  ): (r: LoadOrCreateLookupTableReturn)
    ensures r.created <==> txHash !in tables
    ensures !r.created ==> r.transfersLookupTable == tables[txHash]
    ensures r.created ==>
      && r.transfersLookupTable.blockNumber == blockNumber
      && r.transfersLookupTable.blockTimestamp == blockTimestamp
      && r.transfersLookupTable.interactedWith == Some(interactedWith)
      && r.transfersLookupTable.erc20Transfers == []
      && r.transfersLookupTable.erc721Transfers == []
      && r.transfersLookupTable.ethValue == None
  {
    if txHash in tables then LoadOrCreateLookupTableReturn(tables[txHash], false)
    else
      var created := TransfersLookupTable(blockNumber, blockTimestamp, Some(interactedWith), [], [], None);
      LoadOrCreateLookupTableReturn(created, true)
  }
}
