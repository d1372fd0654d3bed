/** The pure decision at the heart of finalization: is an accumulated
    transaction a simple sale, and if so, which one. */
module SaleMatcher {
  import opened Options
  import opened Schema

  /** What the matcher loads and assumes present: once both lists are
      non-empty, every listed payment transfer and the first asset transfer. */
  predicate Loadable(
    erc20: map<TransferId, ERC20Transfer>,
    erc721: map<TransferId, ERC721Transfer>,
    t: TransfersLookupTable)
  {
    |t.erc20Transfers| > 0 && |t.erc721Transfers| > 0 ==>
      && (forall k :: 0 <= k < |t.erc20Transfers| ==> t.erc20Transfers[k] in erc20)
      && t.erc721Transfers[0] in erc721
  }

  /** Whether every payment transfer listed from position `from` on was made
      on `contract`. */
  function SameContract(
    erc20: map<TransferId, ERC20Transfer>,
    ids: seq<TransferId>,
    from: nat,
    contract: Address
  ): (b: bool)
    requires from <= |ids|
    requires forall k :: 0 <= k < |ids| ==> ids[k] in erc20
    ensures b <==> forall k :: from <= k < |ids| ==> erc20[ids[k]].contractAddress == contract
    decreases |ids| - from
  {
    if from == |ids| then true
    else erc20[ids[from]].contractAddress == contract && SameContract(erc20, ids, from + 1, contract)
  }

  /** Whether the table mixes payment tokens: some listed payment transfer
      was made on a contract other than the first one's. */
  ghost predicate MixedPayment(erc20: map<TransferId, ERC20Transfer>, t: TransfersLookupTable)
    requires |t.erc20Transfers| > 0
    requires forall k :: 0 <= k < |t.erc20Transfers| ==> t.erc20Transfers[k] in erc20
  {
    exists k :: 0 <= k < |t.erc20Transfers|
      && erc20[t.erc20Transfers[k]].contractAddress != erc20[t.erc20Transfers[0]].contractAddress
  }

  /** The sale the transaction `txHash` amounts to, or `None` when it has no
      payment transfer, no asset transfer, or payments in more than one
      token.  The first asset transfer names buyer and seller; the first
      payment transfer names the payment token. */
  function TryBuildNFTSale(
    erc20: map<TransferId, ERC20Transfer>,
    erc721: map<TransferId, ERC721Transfer>,
    txHash: TxHash,
    t: TransfersLookupTable
  ): (r: Option<NFTSale>)
    requires Loadable(erc20, erc721, t)
    ensures r.None? <==>
      || |t.erc20Transfers| == 0
      || |t.erc721Transfers| == 0
      || MixedPayment(erc20, t)
    ensures r.Some? ==>
      && (forall k :: 0 <= k < |t.erc20Transfers| ==>
            erc20[t.erc20Transfers[k]].contractAddress == r.value.paymentTokenAddress)
      && r.value.paymentTokenName == erc20[t.erc20Transfers[0]].contractName
      && r.value.buyer == erc721[t.erc721Transfers[0]].to
      && r.value.seller == erc721[t.erc721Transfers[0]].from
      && r.value.blockNumber == t.blockNumber
      && r.value.blockTimestamp == t.blockTimestamp
      && r.value.interactedWith == t.interactedWith
      && r.value.transfersLookupTable == txHash
  {
    if |t.erc20Transfers| == 0 || |t.erc721Transfers| == 0 then None
    else
      var firstERC20 := erc20[t.erc20Transfers[0]];
      var firstERC721 := erc721[t.erc721Transfers[0]];
      if !SameContract(erc20, t.erc20Transfers, 0, firstERC20.contractAddress) then None
      else
        Some(NFTSale(
          t.blockNumber, t.blockTimestamp, t.interactedWith,
          firstERC721.to, firstERC721.from,
          firstERC20.contractAddress, firstERC20.contractName,
          txHash))
  }

  /** The decision depends only on the table and on the transfers it lists:
      stores that agree on those give the same answer. */
  lemma TryBuildNFTSaleFrame(
    erc20: map<TransferId, ERC20Transfer>, erc721: map<TransferId, ERC721Transfer>,
    erc20': map<TransferId, ERC20Transfer>, erc721': map<TransferId, ERC721Transfer>,
    txHash: TxHash, t: TransfersLookupTable)
    requires Loadable(erc20, erc721, t)
    requires forall i :: i in t.erc20Transfers && i in erc20 ==> i in erc20' && erc20'[i] == erc20[i]
    requires forall i :: i in t.erc721Transfers && i in erc721 ==> i in erc721' && erc721'[i] == erc721[i]
    ensures Loadable(erc20', erc721', t)
    ensures TryBuildNFTSale(erc20', erc721', txHash, t) == TryBuildNFTSale(erc20, erc721, txHash, t)
  {
    if |t.erc20Transfers| > 0 && |t.erc721Transfers| > 0 {
      assert t.erc721Transfers[0] in t.erc721Transfers;
      forall k | 0 <= k < |t.erc20Transfers|
        ensures t.erc20Transfers[k] in erc20' && erc20'[t.erc20Transfers[k]] == erc20[t.erc20Transfers[k]]
      {
        assert t.erc20Transfers[k] in t.erc20Transfers;
      }
    }
  }
}
