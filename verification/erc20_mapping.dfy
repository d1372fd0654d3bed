/** Recording of payment (ERC20) transfer events.  A payment is always
    deferred: it is only appended to its transaction's table, and the table
    is parked in the pending list when this transfer created it. */
module ERC20Mapping {
  import opened Options
  import opened Schema
  import opened Utils
  import UtilsTemplate

  /** The payment-transfer record an event produces. */
  function NewERC20Transfer(names: NameTable, e: ERC20TransferEvent): ERC20Transfer {
    ERC20Transfer(e.address, AddressToContractName(names, e.address), e.from, e.to, e.value)
  }

  /** Stores the event as payment transfer number `nextERC20TransferID`,
      appends that id to its transaction's table (created from the event's
      block, with no counterparty, when absent) and parks the transaction
      when the table is new.  Asset transfers, sales and the asset counter
      are untouched, whatever native value the transaction carried. */
  function HandleERC20Transfer(names: NameTable, s: Store, e: ERC20TransferEvent): (r: Store)
    ensures var app := LoadOrCreateApplication(s.app); var id := app.nextERC20TransferID;
            var h := e.transaction.hash;
      && r.erc20 == s.erc20[id := NewERC20Transfer(names, e)]
      && r.erc721 == s.erc721
      && r.sales == s.sales
      && r.app.Some?
      && r.app.value.nextERC20TransferID == id + 1
      && r.app.value.nextERC721TransferID == app.nextERC721TransferID
      && r.app.value.transfersLookupTablesToProcess
         == app.transfersLookupTablesToProcess + (if h in s.tables then [] else [h])
      && h in r.tables
      && r.tables == s.tables[h := r.tables[h]]
      && (h in s.tables ==>
            r.tables[h] == s.tables[h].(erc20Transfers := s.tables[h].erc20Transfers + [id]))
      && (h !in s.tables ==>
            r.tables[h] == TransfersLookupTable(e.block.number, e.block.timestamp, None, [id], [], None))
  {
    var h := e.transaction.hash;
    var app := LoadOrCreateApplication(s.app);
    var id := app.nextERC20TransferID;
    var loaded := UtilsTemplate.LoadOrCreateLookupTable(s.tables, h, e.block.number, e.block.timestamp);
    var t := loaded.transfersLookupTable;
    var t' := t.(erc20Transfers := t.erc20Transfers + [id]);
    var pending :=
      if loaded.created then app.transfersLookupTablesToProcess + [h]
      else app.transfersLookupTablesToProcess;
    s.(erc20 := s.erc20[id := NewERC20Transfer(names, e)],
       tables := s.tables[h := t'],
       app := Some(app.(nextERC20TransferID := id + 1, transfersLookupTablesToProcess := pending)))
  }
}
