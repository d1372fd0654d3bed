# Sale-correlation engine of a generic NFT sales indexer

The indexer watches ERC721 (asset) and ERC20 (payment) `Transfer` events and
groups them by transaction hash into a `TransfersLookupTable`. It decides
which transactions are NFT sales and records each one as an `NFTSale`.

- **Sale paid in native currency.** An asset transfer whose transaction
  carries native currency is treated as a sale at once. The sale's payment
  token is the null address, named "ETH".
- **Deferred transactions.** Any other transaction's table is parked in the
  `Application` singleton's pending list (`transfersLookupTablesToProcess`).
- **Block handler.** Once per block, it takes every parked table from an
  earlier block and runs the matcher (`_tryBuildNFTSale`) on it:
  - the table is a sale when it lists at least one payment and at least one
    asset transfer, and every payment uses the same token. The sale is then
    saved;
  - otherwise the table is deleted, together with every transfer it lists.

  Tables from the current block or a later one stay pending, in their
  original order.

The model is functional. The store is an immutable record holding:

- the optional `Application`;
- maps from transfer id to `ERC20Transfer` and to `ERC721Transfer`;
- maps from transaction hash to `TransfersLookupTable` and to `NFTSale`.

Entity ids are the map keys. Each handler is a pure function from store to
store, and the matcher is a pure function returning an `Option`. The block
handler is a recursive fold over the pending list (`BlockHandler.ProcessPending`).

The fold is proved equal to a declarative reference description. That
description names:

- the kept hashes (a filter of the pending list);
- the dropped tables, and the payment and asset ids they list;
- the new sales.

Every table is judged against the store as it was before the block.

A store invariant (`Invariants.Valid`) has five parts:

- pending hashes are distinct;
- every table is either pending or sold;
- every listed transfer exists, and every stored transfer is listed;
- no transfer is listed by two tables;
- every stored id is below its counter.

Each handler is proved to preserve `Valid`. `Valid` is also enough for every
`!` load in the block handler to succeed. `Indexer.Run` replays any event
stream on top of it.

Files:

- `options.dfy`, `schema.dfy`: the data model;
- `utils.dfy`: the helpers of `src/utils.ts`;
- `utils_template.dfy`: the 3-argument lookup-table helper of
  `bootstrap/templates/utils.template.ts`;
- `sale_matcher.dfy`: the matcher;
- `erc721_mapping.dfy`, `erc20_mapping.dfy`: the transfer handlers;
- `block_handler.dfy`: the block handler;
- `invariants.dfy`: the store invariant;
- `indexer.dfy`: event dispatch;
- `scenarios.dfy`: worked event sequences.

The code builds the two event handlers against different forms of
`loadOrCreateLookupTable`:

- The asset handler calls the 4-argument form of `src/utils.ts`. That form
  records the transaction's recipient as `interacted_with`.
- The payment handler calls the 3-argument form of
  `bootstrap/templates/utils.template.ts`. That form leaves `interacted_with`
  unset.

`bootstrap/bootstrap.js` regenerates `src/utils.ts` from the template
(lines 152-167). So the committed utilities and the generated utilities
disagree on this function. The model follows the call sites:

- `ERC721Mapping` uses `Utils.LoadOrCreateLookupTable`;
- `ERC20Mapping` uses `UtilsTemplate.LoadOrCreateLookupTable`;
- `interactedWith` is an `Option`.

`UtilsTemplate.FormsAgree` states how the two forms relate.

## Model

| member | source | states |
|---|---|---|
| Utils.AddressToContractName | src/utils.ts:11-20 | An address equal to no configured constant resolves to "UNKNOWN"; otherwise it resolves to the name of the first matching constant in declaration order. |
| Utils.LoadOrCreateApplication | src/utils.ts:27-38 | A stored application is returned unchanged. A missing one is replaced by one with both counters at 0 and an empty pending list. |
| Utils.LoadOrCreateLookupTable | src/utils.ts:53-73 | `created` holds exactly when no table is stored under the hash. An existing table is returned unchanged and the block arguments are ignored. A new table has the given block number, timestamp and counterparty, empty transfer lists, and no native value. |
| UtilsTemplate.LoadOrCreateLookupTable | bootstrap/templates/utils.template.ts:46-60 | Same as the 4-argument form, except that a new table's counterparty is unset. |
| UtilsTemplate.FormsAgree | bootstrap/templates/utils.template.ts:46-60 | The 3-argument and 4-argument forms agree on `created` and on an existing table. A new table differs only in `interactedWith`. |
| SaleMatcher.SameContract | bootstrap/templates/erc721_mapping.template.ts:220-224 | The check loop succeeds exactly when every listed payment from the given position on was made on the given contract. |
| SaleMatcher.TryBuildNFTSale | bootstrap/templates/erc721_mapping.template.ts:209-237 | No sale exactly when the payment list is empty, the asset list is empty, or some payment's contract differs from the first payment's. A sale is keyed to its table. Its payment token (address and name) comes from the first payment, its buyer and seller from the first asset transfer, and its block number, timestamp and counterparty from the table. |
| SaleMatcher.TryBuildNFTSaleFrame | bootstrap/templates/erc721_mapping.template.ts:216-224 | The matcher reads only the table and the transfers it lists: two stores that agree on those give the same decision. |
| ERC721Mapping.RegisterETHSale | bootstrap/templates/erc721_mapping.template.ts:44-100 | The transfer is stored under the old asset counter, which goes up by one. Its id is appended to the table's asset list; other list entries and table fields are kept. The table's native value becomes the transaction value and the pending list is left unchanged. A native-currency sale (null address, "ETH", buyer `to`, seller `from`) is added exactly when the table is new; a later transfer of the same transaction adds none. |
| ERC721Mapping.RegisterERC721Transfer | bootstrap/templates/erc721_mapping.template.ts:106-153 | Same storage and id allocation as the native path. No sale is made and the native value is left alone. The hash is appended to the pending list exactly when the table is new. |
| ERC721Mapping.HandleERC721Transfer | bootstrap/templates/erc721_mapping.template.ts:22-38 | Either path allocates the next asset id and records the transfer in its table. The payment counter is untouched. A transaction with native value never becomes pending and is sold only by its first transfer. A transaction without native value is never sold here, leaves the table's native value as it was (none for a new table), and becomes pending only when its table is new. |
| ERC20Mapping.HandleERC20Transfer | bootstrap/templates/erc20_mapping.template.ts:11-51 | The payment is stored under the old payment counter, which goes up by one; the asset counter is unchanged. Its id is appended to the table's payment list, and the rest of the table is kept. The hash is appended to pending exactly when the table is new; a new table has the event's block and no counterparty. Asset transfers and sales are untouched, whatever the transaction value. |
| BlockHandler.RemoveIds | bootstrap/templates/erc721_mapping.template.ts:246-254 | Removing a list of ids one by one leaves the map minus exactly the set of listed ids. |
| BlockHandler.RemoveEntitiesFromStore | bootstrap/templates/erc721_mapping.template.ts:239-255 | The table and exactly the payment and asset ids it lists are deleted. Every other table and transfer, every sale, and the application stay unchanged. |
| BlockHandler.Decide | bootstrap/templates/erc721_mapping.template.ts:181-194 | A table is kept exactly when its block is not earlier than the current one. An earlier-block table is sold exactly when the matcher accepts it, with the matcher's sale, and dropped exactly when the matcher rejects it. |
| BlockHandler.FinalizeTable | bootstrap/templates/erc721_mapping.template.ts:179-194 | One loop iteration. A kept table is pushed back and the store is unchanged. A sold table gains exactly its sale. A dropped table is deleted with exactly the transfers it lists. The application is untouched. |
| BlockHandler.ProcessPending | bootstrap/templates/erc721_mapping.template.ts:176-195 | The loop agrees with the reference description. The kept hashes are the filter of the pending list. Tables lose exactly the dropped ones, transfers lose exactly the ids those tables list, and sales gain exactly the accepted ones. Each table is judged as it was before the loop. |
| BlockHandler.HandleBlock | bootstrap/templates/erc721_mapping.template.ts:166-200 | The block's effect on the whole store equals the reference description, and the new pending list is the kept sub-sequence. |
| BlockHandler.KeptPendingMembers | bootstrap/templates/erc721_mapping.template.ts:176-194 | A hash is kept exactly when it was pending and its table's block is not earlier than the current one. A duplicate-free pending list stays duplicate-free. |
| BlockHandler.HandleBlockOn | bootstrap/templates/erc721_mapping.template.ts:178-194 | For one pending table: it stays pending exactly when it is not from an earlier block. An earlier-block table is either sold with the matcher's sale, table kept unchanged, or deleted with every transfer it lists. Earlier sales are kept. |
| BlockHandler.HandleBlockOff | bootstrap/templates/erc721_mapping.template.ts:178-198 | A table that is not pending, and its sale, are left exactly as they were, and it does not become pending. |
| BlockHandler.HandleBlockPendingSplit | bootstrap/templates/erc721_mapping.template.ts:176-198 | Nothing joins the pending list. Every earlier-block entry leaves it, and every other entry stays. |
| Invariants.ValidIsFinalizable | bootstrap/templates/erc721_mapping.template.ts:179-222 | In a valid store every pending hash has a table and every transfer the matcher loads exists, so no `!` load in the block handler fails. |
| Invariants.HandleERC20TransferPreservesValid | bootstrap/templates/erc20_mapping.template.ts:19-50 | The payment handler keeps the store invariant, and the id it allocates is free. |
| Invariants.HandleERC721TransferPreservesValid | bootstrap/templates/erc721_mapping.template.ts:22-153 | The asset handler, on either path, keeps the store invariant, and the id it allocates is free. |
| Invariants.HandleBlockPreservesValid | bootstrap/templates/erc721_mapping.template.ts:166-200 | The block handler keeps the store invariant and never changes or removes an existing sale. |
| Indexer.Apply | bootstrap/templates/erc721_mapping.template.ts:22-200 | Dispatching one event keeps the store valid and never lowers either counter. Every existing sale is kept unchanged, so a transaction has at most one sale, and it is never overwritten or deleted. |
| Indexer.Run | bootstrap/templates/erc721_mapping.template.ts:22-200 | For any stream of events, the store stays valid, the counters never go down, every sale present at the start is still there unchanged, and every id stored at the start stays below the counters, so it is never allocated again. |
| Scenarios.NativeSale | bootstrap/templates/erc721_mapping.template.ts:25-99 | One native-paid asset transfer gives an immediate sale in "ETH" and leaves nothing pending. |
| Scenarios.DeferredSale | bootstrap/templates/erc721_mapping.template.ts:181-191 | A WETH payment and an asset transfer in block 100 stay pending through block 100's tick. At block 101's tick they become a WETH sale from the seller to the buyer, and all entities are kept. |
| Scenarios.MixedPaymentDropped | bootstrap/templates/erc721_mapping.template.ts:184-224 | Payments in two tokens give no sale. The next tick deletes the table and all three transfers, and the counters keep their values. |
| Scenarios.PaymentOnlyDropped | bootstrap/templates/erc721_mapping.template.ts:214 | A payment with no asset transfer is deleted at the next tick. |
| Scenarios.NativeBundle | bootstrap/templates/erc721_mapping.template.ts:86-99 | Two native-paid transfers in one transaction give one sale, made by the first, and a table listing both. |

## Left out

- The generator `bootstrap/bootstrap.js` and its template placeholders are left out: it is code generation and file I/O. The configured constants are a parameter `names` (a `Utils.NameTable`), with addresses already lower-cased.
- The host's entity store (`load`, `save`, `store.remove`) is modelled as Dafny maps. Each handler call is one atomic step, so the order of `save` calls inside a handler is not modelled.
- `BigInt`, `Bytes`, `toHexString` and `toString` are not modelled. Counters, values and block fields are unbounded `nat`s, and hashes and addresses are strings. Id-to-string conversion is assumed injective.
- `NULL_ADDRESS` is declared in `constant.ts`, which is not part of this model. It is taken to be the all-zero 20-byte address.
- The `loadOrdCreateApplication` of `bootstrap/templates/utils.template.ts:20-31` is identical to that of `src/utils.ts`. It is modelled once, as `Utils.LoadOrCreateApplication`.
- The non-null assertions (`!`) are preconditions, not runtime traps. A transaction with no recipient is excluded by `requires e.transaction.to.Some?` on the asset handler. The loads in the block handler are covered by `BlockHandler.Finalizable`, which `Invariants.Valid` implies.
- Chain reorganisation is left out: the host rolls back and replays.
