/** Recording of asset (ERC721) transfer events.  A transaction that moved
    native currency is taken as a sale at once; any other is parked in the
    pending list until the next block decides it. */
module ERC721Mapping {
  import opened Options
  import opened Schema
  import opened Utils

  /** Payment-token address recorded for a sale paid in native currency. */
  const NULL_ADDRESS: Address := "0x0000000000000000000000000000000000000000"

  /** Payment-token name recorded for a sale paid in native currency. */
  const ETH := "ETH"

  /** The asset-transfer record an event produces. */
  function NewERC721Transfer(names: NameTable, e: ERC721TransferEvent): ERC721Transfer {
    ERC721Transfer(e.address, AddressToContractName(names, e.address), e.from, e.to, e.tokenId)
  }

  /** The sale a native-currency-paid asset transfer produces. */
  function ETHSale(e: ERC721TransferEvent): NFTSale {
    NFTSale(e.block.number, e.block.timestamp, e.transaction.to, e.to, e.from,
            NULL_ADDRESS, ETH, e.transaction.hash)
  }

  /** What both paths do: store the event as asset transfer `id` and append
      `id` to its transaction's table, created from the event's block when
      absent.  No payment transfer and no other table changes. */
  ghost predicate AssetRecorded(
    names: NameTable, s: Store, e: ERC721TransferEvent, id: TransferId, r: Store)
  {
    var h := e.transaction.hash;
    && r.erc721 == s.erc721[id := NewERC721Transfer(names, e)]
    && r.erc20 == s.erc20
    && h in r.tables
    && r.tables == s.tables[h := r.tables[h]]
    && (h in s.tables ==>
          && r.tables[h].erc721Transfers == s.tables[h].erc721Transfers + [id]
          && r.tables[h].erc20Transfers == s.tables[h].erc20Transfers
          && r.tables[h].blockNumber == s.tables[h].blockNumber
          && r.tables[h].blockTimestamp == s.tables[h].blockTimestamp
          && r.tables[h].interactedWith == s.tables[h].interactedWith)
    && (h !in s.tables ==>
          && r.tables[h].erc721Transfers == [id]
          && r.tables[h].erc20Transfers == []
          && r.tables[h].blockNumber == e.block.number
          && r.tables[h].blockTimestamp == e.block.timestamp
          && r.tables[h].interactedWith == e.transaction.to)
  }

  /** Native-currency path.  The table records the transaction value, the
      pending list is left alone, and a sale keyed by the transaction hash is
      created only by the transfer that created the table. */
  function RegisterETHSale(names: NameTable, s: Store, app: Application, e: ERC721TransferEvent): (r: Store)
    requires e.transaction.to.Some?
    ensures AssetRecorded(names, s, e, app.nextERC721TransferID, r)
    ensures r.tables[e.transaction.hash].ethValue == Some(e.transaction.value)
    ensures r.app == Some(app.(nextERC721TransferID := app.nextERC721TransferID + 1))
    ensures e.transaction.hash in s.tables ==> r.sales == s.sales
    ensures e.transaction.hash !in s.tables ==> r.sales == s.sales[e.transaction.hash := ETHSale(e)]
  {
    var h := e.transaction.hash;
    var interactedWith := e.transaction.to.value;
    var id := app.nextERC721TransferID;
    var loaded := LoadOrCreateLookupTable(s.tables, h, e.block.number, e.block.timestamp, interactedWith);
    var t := loaded.transfersLookupTable;
    var t' := t.(erc721Transfers := t.erc721Transfers + [id], ethValue := Some(e.transaction.value));
    var sales :=
      if loaded.created then
        s.sales[h := NFTSale(e.block.number, e.block.timestamp, Some(interactedWith), e.to, e.from,
                             NULL_ADDRESS, ETH, h)]
      else s.sales;
    s.(erc721 := s.erc721[id := NewERC721Transfer(names, e)],
       tables := s.tables[h := t'],
       sales := sales,
       app := Some(app.(nextERC721TransferID := id + 1)))
  }

  /** Deferred path.  The table's native value is left alone, no sale is
      created, and the transaction hash is appended to the pending list only
      by the transfer that created the table. */
  function RegisterERC721Transfer(names: NameTable, s: Store, app: Application, e: ERC721TransferEvent): (r: Store)
    requires e.transaction.to.Some?
    ensures AssetRecorded(names, s, e, app.nextERC721TransferID, r)
    ensures e.transaction.hash in s.tables ==>
              r.tables[e.transaction.hash].ethValue == s.tables[e.transaction.hash].ethValue
    ensures e.transaction.hash !in s.tables ==> r.tables[e.transaction.hash].ethValue == None
    ensures r.sales == s.sales
    ensures r.app.Some?
    ensures r.app.value.nextERC721TransferID == app.nextERC721TransferID + 1
    ensures r.app.value.nextERC20TransferID == app.nextERC20TransferID
    ensures r.app.value.transfersLookupTablesToProcess
            == app.transfersLookupTablesToProcess + (if e.transaction.hash in s.tables then [] else [e.transaction.hash])
  {
    var h := e.transaction.hash;
    var id := app.nextERC721TransferID;
    var loaded := LoadOrCreateLookupTable(s.tables, h, e.block.number, e.block.timestamp, e.transaction.to.value);
    var t := loaded.transfersLookupTable;
    var t' := t.(erc721Transfers := t.erc721Transfers + [id]);
    var pending :=
      if loaded.created then app.transfersLookupTablesToProcess + [h]
      else app.transfersLookupTablesToProcess;
    s.(erc721 := s.erc721[id := NewERC721Transfer(names, e)],
       tables := s.tables[h := t'],
       app := Some(app.(nextERC721TransferID := id + 1, transfersLookupTablesToProcess := pending)))
  }

  /** Entry point for an asset transfer.  Either path allocates the next
      asset-transfer id and leaves the payment counter alone; a transaction
      that moved native currency is sold at once and never becomes pending,
      any other is deferred and never sold here. */
  function HandleERC721Transfer(names: NameTable, s: Store, e: ERC721TransferEvent): (r: Store)
    requires e.transaction.to.Some?
    ensures var app := LoadOrCreateApplication(s.app);
      && AssetRecorded(names, s, e, app.nextERC721TransferID, r)
      && r.app.Some?
      && r.app.value.nextERC721TransferID == app.nextERC721TransferID + 1
      && r.app.value.nextERC20TransferID == app.nextERC20TransferID
    ensures var app := LoadOrCreateApplication(s.app);
      e.transaction.value > 0 ==>
        && r.app.value.transfersLookupTablesToProcess == app.transfersLookupTablesToProcess
        && r.tables[e.transaction.hash].ethValue == Some(e.transaction.value)
        && (e.transaction.hash in s.tables ==> r.sales == s.sales)
        && (e.transaction.hash !in s.tables ==> r.sales == s.sales[e.transaction.hash := ETHSale(e)])
    ensures var app := LoadOrCreateApplication(s.app);
      e.transaction.value == 0 ==>
        && r.sales == s.sales
        && (e.transaction.hash in s.tables ==>
              r.tables[e.transaction.hash].ethValue == s.tables[e.transaction.hash].ethValue)
        && (e.transaction.hash !in s.tables ==> r.tables[e.transaction.hash].ethValue == None)
        && r.app.value.transfersLookupTablesToProcess
           == app.transfersLookupTablesToProcess + (if e.transaction.hash in s.tables then [] else [e.transaction.hash])
  {
    var app := LoadOrCreateApplication(s.app);
    if e.transaction.value > 0 then RegisterETHSale(names, s, app, e)
    else RegisterERC721Transfer(names, s, app, e)
  }
}
