/** Worked runs of the indexer on small transactions, one per typical case:
    a sale paid in native currency, a deferred sale paid with a token, a
    payment in two tokens, a payment with no asset, and a native-paid
    bundle. */
module Scenarios {
  import opened Options
  import opened Schema
  import opened Utils
  import opened BlockHandler
  import opened Invariants
  import opened Indexer
  import ERC721Mapping
  import ERC20Mapping

  const Names: NameTable := [NamedAddress("WETH", "0xweth"), NamedAddress("USDC", "0xusdc")]

  function Asset(hash: TxHash, from: Address, to: Address, tokenId: nat, value: nat, number: nat): Event {
    AssetTransfer(ERC721TransferEvent("0xnft", from, to, tokenId,
                                      Transaction(hash, Some("0xmarket"), value), Block(number, number * 12)))
  }

  function Payment(hash: TxHash, contract: Address, from: Address, to: Address, amount: nat, number: nat): Event {
    PaymentTransfer(ERC20TransferEvent(contract, from, to, amount,
                                       Transaction(hash, Some("0xmarket"), 0), Block(number, number * 12)))
  }

  /** One asset transfer A to B with native value attached: asset transfer
      0 is recorded and the sale exists at once, paid in native currency,
      with nothing pending. */
  lemma NativeSale()
    ensures var r := Apply(Names, EmptyStore, Asset("0xh1", "0xa", "0xb", 7, 1, 10));
      && r.erc721 == map[0 := ERC721Transfer("0xnft", UNKNOWN, "0xa", "0xb", 7)]
      && "0xh1" in r.sales
      && r.sales["0xh1"].buyer == "0xb" && r.sales["0xh1"].seller == "0xa"
      && r.sales["0xh1"].paymentTokenAddress == ERC721Mapping.NULL_ADDRESS
      && r.sales["0xh1"].paymentTokenName == "ETH"
      && Pending(r) == []
  {
  }

  // Transaction 0xh2: a WETH payment and an asset transfer in block 100.

  const H2: TxHash := "0xh2"
  const PayH2 := ERC20TransferEvent("0xweth", "0xb", "0xa", 50, Transaction(H2, Some("0xmarket"), 0), Block(100, 1200))
  const AssetH2 := ERC721TransferEvent("0xnft", "0xa", "0xb", 9, Transaction(H2, Some("0xmarket"), 0), Block(100, 1200))
  const WETHPayment := ERC20Transfer("0xweth", "WETH", "0xb", "0xa", 50)
  const TableH2 := TransfersLookupTable(100, 1200, None, [0], [0], None)
  const AfterPayH2 := Store(Some(Application(1, 0, [H2])), map[0 := WETHPayment], map[],
                            map[H2 := TransfersLookupTable(100, 1200, None, [0], [], None)], map[])
  const AfterAssetH2 := Store(Some(Application(1, 1, [H2])), map[0 := WETHPayment],
                              map[0 := ERC721Transfer("0xnft", UNKNOWN, "0xa", "0xb", 9)],
                              map[H2 := TableH2], map[])
  const SaleH2 := NFTSale(100, 1200, None, "0xb", "0xa", "0xweth", "WETH", H2)

  lemma PayH2Step()
    ensures ERC20Mapping.HandleERC20Transfer(Names, EmptyStore, PayH2) == AfterPayH2
  {
    assert AddressToContractName(Names, "0xweth") == "WETH";
    assert LoadOrCreateApplication(EmptyStore.app) == Application(0, 0, []);
    var r := ERC20Mapping.HandleERC20Transfer(Names, EmptyStore, PayH2);
    assert H2 !in EmptyStore.tables;
    assert [] + [H2] == [H2];
    assert r.app == AfterPayH2.app;
    assert r.erc20 == AfterPayH2.erc20;
    assert r.tables == AfterPayH2.tables;
  }

  lemma AssetH2Step()
    ensures ERC721Mapping.HandleERC721Transfer(Names, AfterPayH2, AssetH2) == AfterAssetH2
  {
    assert AddressToContractName(Names, "0xnft") == UNKNOWN;
    var s := AfterPayH2;
    var r := ERC721Mapping.HandleERC721Transfer(Names, s, AssetH2);
    assert LoadOrCreateApplication(s.app) == Application(1, 0, [H2]);
    assert r.app == AfterAssetH2.app;
    assert r.erc721 == AfterAssetH2.erc721;
    assert r.tables[H2] == TableH2;
    assert r.tables == AfterAssetH2.tables;
  }

  lemma TickH2(number: nat)
    requires Finalizable(AfterAssetH2, Pending(AfterAssetH2))
    ensures number <= 100 ==> HandleBlock(AfterAssetH2, Block(number, 12 * number)) == AfterAssetH2
    ensures number > 100 ==>
              HandleBlock(AfterAssetH2, Block(number, 12 * number))
              == AfterAssetH2.(app := Some(Application(1, 1, [])), sales := map[H2 := SaleH2])
  {
    var s := AfterAssetH2;
    assert s.tables[H2] == TableH2;
    assert SaleMatcher.TryBuildNFTSale(s.erc20, s.erc721, H2, TableH2) == Some(SaleH2);
    if number <= 100 {
      assert Decide(s, H2, number) == Keep;
      assert KeptPending(s, [H2], number) == [H2];
      assert DroppedTables(s, [H2], number) == {};
      assert DroppedERC20(s, [H2], number) == {};
      assert DroppedERC721(s, [H2], number) == {};
      assert NewSales(s, [H2], number) == map[];
    } else {
      assert Decide(s, H2, number) == Sell(SaleH2);
      assert KeptPending(s, [H2], number) == [];
      assert DroppedTables(s, [H2], number) == {};
      assert DroppedERC20(s, [H2], number) == {};
      assert DroppedERC721(s, [H2], number) == {};
      assert NewSales(s, [H2], number) == map[H2 := SaleH2];
    }
  }

  const SoldH2 := AfterAssetH2.(app := Some(Application(1, 1, [])), sales := map[H2 := SaleH2])

  lemma ApplyPayH2()
    ensures Apply(Names, EmptyStore, PaymentTransfer(PayH2)) == AfterPayH2
    ensures Valid(AfterPayH2)
  {
    EmptyStoreValid();
    PayH2Step();
  }

  lemma ApplyAssetH2()
    ensures Valid(AfterPayH2) && Apply(Names, AfterPayH2, AssetTransfer(AssetH2)) == AfterAssetH2
    ensures Valid(AfterAssetH2)
  {
    ApplyPayH2();
    AssetH2Step();
  }

  lemma ApplyTicksH2()
    ensures Valid(AfterAssetH2) && Apply(Names, AfterAssetH2, NewBlock(Block(100, 1200))) == AfterAssetH2
    ensures Valid(AfterAssetH2) && Apply(Names, AfterAssetH2, NewBlock(Block(101, 1212))) == SoldH2
  {
    ApplyAssetH2();
    ValidIsFinalizable(AfterAssetH2);
    TickH2(100);
    TickH2(101);
  }

  /** A payment in WETH and an asset transfer A to B in one transaction of
      block 100: the transaction is pending through the tick of block 100
      and sold at the tick of block 101, paid in WETH; both transfers and
      the table stay. */
  lemma DeferredSale()
    ensures var s1 := Apply(Names, EmptyStore, PaymentTransfer(PayH2));
            var s2 := Apply(Names, s1, AssetTransfer(AssetH2));
            var s3 := Apply(Names, s2, NewBlock(Block(100, 1200)));
            var s4 := Apply(Names, s3, NewBlock(Block(101, 1212)));
      && Pending(s2) == [H2] && Pending(s3) == [H2] && s3.sales == map[]
      && Pending(s4) == []
      && s4.sales == map[H2 := SaleH2]
      && SaleH2.paymentTokenAddress == "0xweth" && SaleH2.paymentTokenName == "WETH"
      && SaleH2.buyer == "0xb" && SaleH2.seller == "0xa"
      && s4.erc20 == s2.erc20 && s4.erc721 == s2.erc721 && s4.tables == s2.tables
  {
    EmptyStoreValid();
    ApplyPayH2();
    ApplyAssetH2();
    ApplyTicksH2();
  }

  // Transaction 0xh3: payments in WETH and in USDC and an asset transfer in
  // block 200.

  const H3: TxHash := "0xh3"
  const WETHPayH3 := ERC20TransferEvent("0xweth", "0xb", "0xa", 50, Transaction(H3, Some("0xmarket"), 0), Block(200, 2400))
  const USDCPayH3 := ERC20TransferEvent("0xusdc", "0xb", "0xa", 70, Transaction(H3, Some("0xmarket"), 0), Block(200, 2400))
  const AssetH3 := ERC721TransferEvent("0xnft", "0xa", "0xb", 3, Transaction(H3, Some("0xmarket"), 0), Block(200, 2400))
  const AfterWETHH3 := Store(Some(Application(1, 0, [H3])), map[0 := ERC20Transfer("0xweth", "WETH", "0xb", "0xa", 50)],
                             map[], map[H3 := TransfersLookupTable(200, 2400, None, [0], [], None)], map[])
  const AfterUSDCH3 := Store(Some(Application(2, 0, [H3])),
                             AfterWETHH3.erc20[1 := ERC20Transfer("0xusdc", "USDC", "0xb", "0xa", 70)],
                             map[], map[H3 := TransfersLookupTable(200, 2400, None, [0, 1], [], None)], map[])
  const AfterAssetH3 := Store(Some(Application(2, 1, [H3])), AfterUSDCH3.erc20,
                              map[0 := ERC721Transfer("0xnft", UNKNOWN, "0xa", "0xb", 3)],
                              map[H3 := TransfersLookupTable(200, 2400, None, [0, 1], [0], None)], map[])
  const DroppedH3 := Store(Some(Application(2, 1, [])), map[], map[], map[], map[])

  lemma ApplyWETHH3()
    ensures Apply(Names, EmptyStore, PaymentTransfer(WETHPayH3)) == AfterWETHH3
    ensures Valid(AfterWETHH3)
  {
    EmptyStoreValid();
    assert AddressToContractName(Names, "0xweth") == "WETH";
    assert LoadOrCreateApplication(EmptyStore.app) == Application(0, 0, []);
    var r := ERC20Mapping.HandleERC20Transfer(Names, EmptyStore, WETHPayH3);
    assert H3 !in EmptyStore.tables;
    assert [] + [H3] == [H3];
    assert r.app == AfterWETHH3.app;
    assert r.erc20 == AfterWETHH3.erc20;
    assert r.tables == AfterWETHH3.tables;
  }

  lemma ApplyUSDCH3()
    ensures Valid(AfterWETHH3) && Apply(Names, AfterWETHH3, PaymentTransfer(USDCPayH3)) == AfterUSDCH3
    ensures Valid(AfterUSDCH3)
  {
    ApplyWETHH3();
    assert AddressToContractName(Names, "0xusdc") == "USDC";
    var s := AfterWETHH3;
    var r := ERC20Mapping.HandleERC20Transfer(Names, s, USDCPayH3);
    assert LoadOrCreateApplication(s.app) == Application(1, 0, [H3]);
    assert r.app == AfterUSDCH3.app;
    assert r.erc20 == AfterUSDCH3.erc20;
    assert r.tables[H3] == AfterUSDCH3.tables[H3];
    assert r.tables == AfterUSDCH3.tables;
  }

  lemma ApplyAssetH3()
    ensures Valid(AfterUSDCH3) && Apply(Names, AfterUSDCH3, AssetTransfer(AssetH3)) == AfterAssetH3
    ensures Valid(AfterAssetH3)
  {
    ApplyUSDCH3();
    assert AddressToContractName(Names, "0xnft") == UNKNOWN;
    var s := AfterUSDCH3;
    var r := ERC721Mapping.HandleERC721Transfer(Names, s, AssetH3);
    assert LoadOrCreateApplication(s.app) == Application(2, 0, [H3]);
    assert r.app == AfterAssetH3.app;
    assert r.erc721 == AfterAssetH3.erc721;
    assert r.tables[H3] == AfterAssetH3.tables[H3];
    assert r.tables == AfterAssetH3.tables;
  }

  lemma TickH3()
    requires Finalizable(AfterAssetH3, Pending(AfterAssetH3))
    ensures HandleBlock(AfterAssetH3, Block(201, 2412)) == DroppedH3
  {
    var s := AfterAssetH3;
    var t := s.tables[H3];
    assert s.erc20[t.erc20Transfers[1]].contractAddress != s.erc20[t.erc20Transfers[0]].contractAddress;
    assert SaleMatcher.MixedPayment(s.erc20, t);
    assert SaleMatcher.TryBuildNFTSale(s.erc20, s.erc721, H3, t) == None;
    assert Decide(s, H3, 201) == Drop;
    assert KeptPending(s, [H3], 201) == [];
    assert DroppedTables(s, [H3], 201) == {H3};
    ReferenceSplits(s, [H3], 201);
    assert [H3][1..] == [];
    assert DroppedERC20(s, [], 201) == {};
    assert Elements(t.erc20Transfers) == {0, 1};
    assert DroppedERC20(s, [H3], 201) == {0, 1};
    assert DroppedERC721(s, [H3], 201) == {0};
    assert NewSales(s, [H3], 201) == map[];
  }

  lemma AfterAssetH3Keys()
    ensures AfterAssetH3.erc20.Keys == {0, 1} && AfterAssetH3.erc721.Keys == {0}
  {
  }

  lemma ApplyTickH3()
    ensures Valid(AfterAssetH3) && Apply(Names, AfterAssetH3, NewBlock(Block(201, 2412))) == DroppedH3
  {
    ApplyAssetH3();
    ValidIsFinalizable(AfterAssetH3);
    TickH3();
  }

  /** Payments in two different tokens and one asset transfer in one
      transaction: no sale is made, and the next tick deletes the table and
      all three transfers; the counters keep their values. */
  lemma MixedPaymentDropped()
    ensures var s1 := Apply(Names, EmptyStore, PaymentTransfer(WETHPayH3));
            var s2 := Apply(Names, s1, PaymentTransfer(USDCPayH3));
            var s3 := Apply(Names, s2, AssetTransfer(AssetH3));
            var s4 := Apply(Names, s3, NewBlock(Block(201, 2412)));
      && Pending(s3) == [H3] && s3.erc20.Keys == {0, 1} && s3.erc721.Keys == {0}
      && s4.sales == map[] && s4.tables == map[] && s4.erc20 == map[] && s4.erc721 == map[]
      && Pending(s4) == []
      && s4.app.value.nextERC20TransferID == 2 && s4.app.value.nextERC721TransferID == 1
  {
    EmptyStoreValid();
    ApplyWETHH3();
    ApplyUSDCH3();
    ApplyAssetH3();
    ApplyTickH3();
    AfterAssetH3Keys();
    var s1 := Apply(Names, EmptyStore, PaymentTransfer(WETHPayH3));
    assert s1 == AfterWETHH3;
    var s2 := Apply(Names, s1, PaymentTransfer(USDCPayH3));
    assert s2 == AfterUSDCH3;
    var s3 := Apply(Names, s2, AssetTransfer(AssetH3));
    assert s3 == AfterAssetH3;
    var s4 := Apply(Names, s3, NewBlock(Block(201, 2412)));
    assert s4 == DroppedH3;
  }

  /** A payment with no asset transfer is deleted at the next tick. */
  lemma PaymentOnlyDropped()
    ensures var s1 := Apply(Names, EmptyStore, Payment("0xh4", "0xweth", "0xb", "0xa", 50, 300));
            var s2 := Apply(Names, s1, NewBlock(Block(301, 3612)));
      && s2.tables == map[] && s2.erc20 == map[] && s2.sales == map[] && Pending(s2) == []
  {
  }

  /** Two native-paid asset transfers in one transaction: one sale, made by
      the first, and a table listing both. */
  lemma NativeBundle()
    ensures var s1 := Apply(Names, EmptyStore, Asset("0xh5", "0xa", "0xb", 1, 5, 400));
            var s2 := Apply(Names, s1, Asset("0xh5", "0xa", "0xc", 2, 5, 400));
      && s2.sales == s1.sales && |s2.sales| == 1
      && s2.sales["0xh5"].buyer == "0xb"
      && s2.tables["0xh5"].erc721Transfers == [0, 1]
      && Pending(s2) == []
  {
  }
}
