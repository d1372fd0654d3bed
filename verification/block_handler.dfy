/** Finalization of parked transactions, once per block.  Every pending
    table from an earlier block is decided: a sale is saved, a non-sale is
    deleted together with the transfers it lists.  Tables from the current
    block or a later one stay pending, in their original order. */
module BlockHandler {
  import opened Options
  import opened Schema
  import opened Utils
  import opened SaleMatcher

  /** Removes the ids of `ids` from `m`, one after the other. */
  function RemoveIds<V>(m: map<TransferId, V>, ids: seq<TransferId>): (r: map<TransferId, V>)
    ensures r == m - Elements(ids)
    decreases |ids|
  {
    if |ids| == 0 then m
    else
      assert Elements(ids) == {ids[0]} + Elements(ids[1..]);
      RemoveIds(m - {ids[0]}, ids[1..])
  }

  /** Deletes the table of `txHash` and exactly the transfers `t` lists;
      every other entity is left as it was. */
  function RemoveEntitiesFromStore(s: Store, txHash: TxHash, t: TransfersLookupTable): (r: Store)
    ensures r.tables == s.tables - {txHash}
    ensures r.erc20 == s.erc20 - Elements(t.erc20Transfers)
    ensures r.erc721 == s.erc721 - Elements(t.erc721Transfers)
    ensures r.sales == s.sales && r.app == s.app
  {
    s.(tables := s.tables - {txHash},
       erc20 := RemoveIds(s.erc20, t.erc20Transfers),
       erc721 := RemoveIds(s.erc721, t.erc721Transfers))
  }

  /** What finalization does with one pending table. */
  datatype Verdict = Keep | Sell(sale: NFTSale) | Drop

  /** A table from block `current` or later is kept; an older one is sold or
      dropped as the matcher decides. */
  function Decide(s: Store, txHash: TxHash, current: nat): (v: Verdict)
    requires txHash in s.tables && Loadable(s.erc20, s.erc721, s.tables[txHash])
    ensures var t := s.tables[txHash]; var sale := TryBuildNFTSale(s.erc20, s.erc721, txHash, t);
      && (v.Keep? <==> t.blockNumber >= current)
      && (v.Sell? <==> t.blockNumber < current && sale.Some?)
      && (v.Drop? <==> t.blockNumber < current && sale.None?)
      && (v.Sell? ==> v.sale == sale.value)
  {
    var t := s.tables[txHash];
    if t.blockNumber >= current then Keep
    else
      match TryBuildNFTSale(s.erc20, s.erc721, txHash, t)
      case Some(sale) => Sell(sale)
      case None => Drop
  }

  datatype Finalized = Finalized(store: Store, keep: seq<TxHash>)

  /** One iteration of the block handler's loop over the pending list: a
      kept table is pushed back, a sold one gains its sale, a dropped one is
      deleted with its transfers, and nothing else changes. */
  function FinalizeTable(s: Store, txHash: TxHash, current: nat): (r: Finalized)
    requires txHash in s.tables && Loadable(s.erc20, s.erc721, s.tables[txHash])
    ensures var v := Decide(s, txHash, current); var t := s.tables[txHash];
      && r.store.app == s.app
      && r.keep == (if v.Keep? then [txHash] else [])
      && r.store.tables == s.tables - (if v.Drop? then {txHash} else {})
      && r.store.erc20 == s.erc20 - (if v.Drop? then Elements(t.erc20Transfers) else {})
      && r.store.erc721 == s.erc721 - (if v.Drop? then Elements(t.erc721Transfers) else {})
      && r.store.sales == s.sales + (if v.Sell? then map[txHash := v.sale] else map[])
  {
    match Decide(s, txHash, current)
    case Keep => Finalized(s, [txHash])
    case Sell(sale) =>
      assert s.sales[txHash := sale] == s.sales + map[txHash := sale];
      Finalized(s.(sales := s.sales[txHash := sale]), [])
    case Drop => Finalized(RemoveEntitiesFromStore(s, txHash, s.tables[txHash]), [])
  }

  /** Every pending hash has a table whose transfers the matcher can load. */
  ghost predicate Inspectable(s: Store, pending: seq<TxHash>) {
    forall h :: h in pending ==> h in s.tables && Loadable(s.erc20, s.erc721, s.tables[h])
  }

  ghost predicate ChildrenDisjoint(t1: TransfersLookupTable, t2: TransfersLookupTable) {
    && (forall i :: i in t1.erc20Transfers ==> i !in t2.erc20Transfers)
    && (forall i :: i in t1.erc721Transfers ==> i !in t2.erc721Transfers)
  }

  /** What the loop relies on for its loads to succeed: no hash is pending
      twice, every pending table is inspectable, and deleting one pending
      table's transfers never deletes another's. */
  ghost predicate Finalizable(s: Store, pending: seq<TxHash>) {
    && NoDuplicates(pending)
    && Inspectable(s, pending)
    && (forall h1, h2 :: h1 in pending && h2 in pending && h1 != h2 ==>
          ChildrenDisjoint(s.tables[h1], s.tables[h2]))
  }

  // Reference description of one run over `pending`, every table judged
  // against the store as it was before the run.

  ghost function DroppedTables(s: Store, pending: seq<TxHash>, current: nat): set<TxHash>
    requires Inspectable(s, pending)
  {
    set h | h in pending && Decide(s, h, current).Drop?
  }

  ghost function DroppedERC20(s: Store, pending: seq<TxHash>, current: nat): set<TransferId>
    requires Inspectable(s, pending)
  {
    set h, i | h in pending && Decide(s, h, current).Drop? && i in s.tables[h].erc20Transfers :: i
  }

  ghost function DroppedERC721(s: Store, pending: seq<TxHash>, current: nat): set<TransferId>
    requires Inspectable(s, pending)
  {
    set h, i | h in pending && Decide(s, h, current).Drop? && i in s.tables[h].erc721Transfers :: i
  }

  ghost function NewSales(s: Store, pending: seq<TxHash>, current: nat): map<TxHash, NFTSale>
    requires Inspectable(s, pending)
  {
    map h | h in pending && Decide(s, h, current).Sell? :: Decide(s, h, current).sale
  }

  /** The pending hashes whose table is from block `current` or later, in
      their original order. */
  ghost function KeptPending(s: Store, pending: seq<TxHash>, current: nat): seq<TxHash>
    requires Inspectable(s, pending)
  {
    if |pending| == 0 then []
    else
      (if s.tables[pending[0]].blockNumber >= current then [pending[0]] else [])
      + KeptPending(s, pending[1..], current)
  }

  lemma NoDuplicatesTail<T>(xs: seq<T>)
    requires NoDuplicates(xs) && |xs| > 0
    ensures xs[0] !in xs[1..] && NoDuplicates(xs[1..])
  {
    forall j | 0 <= j < |xs[1..]| ensures xs[1..][j] != xs[0] {
      assert xs[1..][j] == xs[j + 1];
    }
  }

  /** Finalizing the first pending table leaves every later one, its
      transfers and its verdict as they were. */
  lemma FinalizeTableFrame(s: Store, pending: seq<TxHash>, current: nat)
    requires Finalizable(s, pending) && |pending| > 0
    ensures var s1 := FinalizeTable(s, pending[0], current).store;
      && Finalizable(s1, pending[1..])
      && (forall h :: h in pending[1..] ==> s1.tables[h] == s.tables[h])
      && (forall h :: h in pending[1..] ==> Decide(s1, h, current) == Decide(s, h, current))
  {
    var h0 := pending[0];
    var rest := pending[1..];
    var s1 := FinalizeTable(s, h0, current).store;
    var t0 := s.tables[h0];
    NoDuplicatesTail(pending);
    forall h | h in rest
      ensures h in s1.tables && s1.tables[h] == s.tables[h]
      ensures Loadable(s1.erc20, s1.erc721, s1.tables[h])
      ensures Decide(s1, h, current) == Decide(s, h, current)
    {
      var t := s.tables[h];
      assert h != h0;
      assert ChildrenDisjoint(t0, t);
      TryBuildNFTSaleFrame(s.erc20, s.erc721, s1.erc20, s1.erc721, h, t);
    }
    assert Inspectable(s1, rest);
  }

  /** The reference description only looks at the listed tables and their
      verdicts. */
  lemma ReferenceAgrees(s: Store, s1: Store, pending: seq<TxHash>, current: nat)
    requires Inspectable(s, pending) && Inspectable(s1, pending)
    requires forall h :: h in pending ==> s1.tables[h] == s.tables[h]
    requires forall h :: h in pending ==> Decide(s1, h, current) == Decide(s, h, current)
    ensures DroppedTables(s1, pending, current) == DroppedTables(s, pending, current)
    ensures DroppedERC20(s1, pending, current) == DroppedERC20(s, pending, current)
    ensures DroppedERC721(s1, pending, current) == DroppedERC721(s, pending, current)
    ensures NewSales(s1, pending, current) == NewSales(s, pending, current)
    ensures KeptPending(s1, pending, current) == KeptPending(s, pending, current)
    decreases |pending|
  {
    if |pending| > 0 {
      ReferenceAgrees(s, s1, pending[1..], current);
    }
  }

  /** The reference description of a list is that of its head followed by
      that of its tail. */
  lemma ReferenceSplits(s: Store, pending: seq<TxHash>, current: nat)
    requires Inspectable(s, pending) && |pending| > 0
    ensures var h := pending[0]; var rest := pending[1..]; var v := Decide(s, h, current);
      && DroppedTables(s, pending, current)
         == (if v.Drop? then {h} else {}) + DroppedTables(s, rest, current)
      && DroppedERC20(s, pending, current)
         == (if v.Drop? then Elements(s.tables[h].erc20Transfers) else {}) + DroppedERC20(s, rest, current)
      && DroppedERC721(s, pending, current)
         == (if v.Drop? then Elements(s.tables[h].erc721Transfers) else {}) + DroppedERC721(s, rest, current)
      && NewSales(s, pending, current)
         == (if v.Sell? then map[h := v.sale] else map[]) + NewSales(s, rest, current)
  {
    var h := pending[0];
    var rest := pending[1..];
    assert forall x :: x in pending <==> x == h || x in rest;
  }

  /** `r` is what the reference description says a run over `pending`
      produces from `s`. */
  ghost predicate Describes(s: Store, pending: seq<TxHash>, current: nat, r: Finalized)
    requires Inspectable(s, pending)
  {
    && r.store.app == s.app
    && r.keep == KeptPending(s, pending, current)
    && r.store.tables == s.tables - DroppedTables(s, pending, current)
    && r.store.erc20 == s.erc20 - DroppedERC20(s, pending, current)
    && r.store.erc721 == s.erc721 - DroppedERC721(s, pending, current)
    && r.store.sales == s.sales + NewSales(s, pending, current)
  }

  lemma ComposeMinus<K, V>(m: map<K, V>, m1: map<K, V>, r: map<K, V>, a: set<K>, d: set<K>, full: set<K>)
    requires m1 == m - a && r == m1 - d && full == a + d
    ensures r == m - full
  {
  }

  lemma ComposePlus<K, V>(m: map<K, V>, m1: map<K, V>, r: map<K, V>, a: map<K, V>, d: map<K, V>, full: map<K, V>)
    requires m1 == m + a && r == m1 + d && full == a + d
    ensures r == m + full
  {
  }

  /** A run over `pending` is the first table's step followed by a run over
      the rest: if the rest is described from the intermediate store, the
      whole is described from the initial one. */
  lemma ComposeStep(s: Store, pending: seq<TxHash>, current: nat, rest: Finalized)
    requires Finalizable(s, pending) && |pending| > 0
    requires Inspectable(FinalizeTable(s, pending[0], current).store, pending[1..])
    requires Describes(FinalizeTable(s, pending[0], current).store, pending[1..], current, rest)
    ensures Describes(s, pending, current,
                      Finalized(rest.store, FinalizeTable(s, pending[0], current).keep + rest.keep))
  {
    var h := pending[0];
    var tail := pending[1..];
    var step := FinalizeTable(s, h, current);
    var s1 := step.store;
    FinalizeTableFrame(s, pending, current);
    ReferenceAgrees(s, s1, tail, current);
    ReferenceSplits(s, pending, current);
    var v := Decide(s, h, current);
    var t := s.tables[h];
    ComposeMinus(s.tables, s1.tables, rest.store.tables,
                 if v.Drop? then {h} else {}, DroppedTables(s, tail, current),
                 DroppedTables(s, pending, current));
    ComposeMinus(s.erc20, s1.erc20, rest.store.erc20,
                 if v.Drop? then Elements(t.erc20Transfers) else {}, DroppedERC20(s, tail, current),
                 DroppedERC20(s, pending, current));
    ComposeMinus(s.erc721, s1.erc721, rest.store.erc721,
                 if v.Drop? then Elements(t.erc721Transfers) else {}, DroppedERC721(s, tail, current),
                 DroppedERC721(s, pending, current));
    ComposePlus(s.sales, s1.sales, rest.store.sales,
                if v.Sell? then map[h := v.sale] else map[], NewSales(s, tail, current),
                NewSales(s, pending, current));
  }

  /** Runs the loop of the block handler over `pending`.  The result is the
      reference description: each table is judged once, against the store as
      it was, and only that table, its transfers and its sale change. */
  function ProcessPending(s: Store, pending: seq<TxHash>, current: nat): (r: Finalized)
    requires Finalizable(s, pending)
    ensures r.store.app == s.app
    ensures r.keep == KeptPending(s, pending, current)
    ensures r.store.tables == s.tables - DroppedTables(s, pending, current)
    ensures r.store.erc20 == s.erc20 - DroppedERC20(s, pending, current)
    ensures r.store.erc721 == s.erc721 - DroppedERC721(s, pending, current)
    ensures r.store.sales == s.sales + NewSales(s, pending, current)
    decreases |pending|
  {
    if |pending| == 0 then Finalized(s, [])
    else
      var step := FinalizeTable(s, pending[0], current);
      FinalizeTableFrame(s, pending, current);
      var rest := ProcessPending(step.store, pending[1..], current);
      ComposeStep(s, pending, current, rest);
      Finalized(rest.store, step.keep + rest.keep)
  }

  /** The pending list of the stored (or freshly created) application. */
  function Pending(s: Store): seq<TxHash> {
    LoadOrCreateApplication(s.app).transfersLookupTablesToProcess
  }

  /** The block handler: finalizes the pending tables of earlier blocks and
      keeps the others pending, in order. */
  function HandleBlock(s: Store, block: Block): (r: Store)
    requires Finalizable(s, Pending(s))
    ensures var app := LoadOrCreateApplication(s.app);
            var pending := app.transfersLookupTablesToProcess;
      && r.app == Some(app.(transfersLookupTablesToProcess := KeptPending(s, pending, block.number)))
      && r.tables == s.tables - DroppedTables(s, pending, block.number)
      && r.erc20 == s.erc20 - DroppedERC20(s, pending, block.number)
      && r.erc721 == s.erc721 - DroppedERC721(s, pending, block.number)
      && r.sales == s.sales + NewSales(s, pending, block.number)
  {
    var app := LoadOrCreateApplication(s.app);
    var run := ProcessPending(s, app.transfersLookupTablesToProcess, block.number);
    run.store.(app := Some(app.(transfersLookupTablesToProcess := run.keep)))
  }

  /** The kept hashes are exactly the pending ones whose table is from block
      `current` or later: none is added, and none is repeated. */
  lemma {:induction false} KeptPendingMembers(s: Store, pending: seq<TxHash>, current: nat)
    requires Inspectable(s, pending)
    ensures forall h :: h in KeptPending(s, pending, current) <==>
                          h in pending && s.tables[h].blockNumber >= current
    ensures NoDuplicates(pending) ==> NoDuplicates(KeptPending(s, pending, current))
    decreases |pending|
  {
    if |pending| > 0 {
      var h := pending[0];
      var tail := pending[1..];
      KeptPendingMembers(s, tail, current);
      var rest := KeptPending(s, tail, current);
      assert forall x :: x in pending <==> x == h || x in tail;
      if NoDuplicates(pending) {
        NoDuplicatesTail(pending);
        if s.tables[h].blockNumber >= current {
          var kept := [h] + rest;
          forall i, j | 0 <= i < j < |kept| ensures kept[i] != kept[j] {
            if i == 0 {
              assert kept[j] == rest[j - 1] && rest[j - 1] in rest;
            } else {
              assert kept[i] == rest[i - 1] && kept[j] == rest[j - 1];
            }
          }
        } else {
          assert KeptPending(s, pending, current) == rest;
        }
      }
    }
  }

  /** What the block handler does to one pending table, by the age of its
      block: one from this block or later stays pending, untouched; an
      older one leaves the pending list and is either turned into the
      matcher's sale, table kept, or deleted together with every transfer
      it lists. */
  lemma HandleBlockOn(s: Store, block: Block, h: TxHash)
    requires Finalizable(s, Pending(s)) && h in Pending(s)
    ensures var r := HandleBlock(s, block); var t := s.tables[h];
            var ready := t.blockNumber < block.number;
            var sale := TryBuildNFTSale(s.erc20, s.erc721, h, t);
      && (h in Pending(r) <==> !ready)
      && (h in r.tables <==> !(ready && sale.None?))
      && (h in r.tables ==> r.tables[h] == t)
      && (h in r.sales <==> h in s.sales || (ready && sale.Some?))
      && (ready && sale.Some? ==> r.sales[h] == sale.value)
      && (h in r.sales && !(ready && sale.Some?) ==> r.sales[h] == s.sales[h])
      && (ready && sale.None? ==>
            && (forall i :: i in t.erc20Transfers ==> i !in r.erc20)
            && (forall i :: i in t.erc721Transfers ==> i !in r.erc721))
  {
    var c := block.number;
    var p := Pending(s);
    KeptPendingMembers(s, p, c);
    var v := Decide(s, h, c);
    if v.Sell? {
      assert h in NewSales(s, p, c);
    } else if v.Drop? {
      assert h in DroppedTables(s, p, c);
      forall i | i in s.tables[h].erc20Transfers ensures i in DroppedERC20(s, p, c) { }
      forall i | i in s.tables[h].erc721Transfers ensures i in DroppedERC721(s, p, c) { }
    }
  }

  /** A table that is not pending, and its sale, are left alone. */
  lemma HandleBlockOff(s: Store, block: Block, h: TxHash)
    requires Finalizable(s, Pending(s)) && h !in Pending(s)
    ensures var r := HandleBlock(s, block);
      && h !in Pending(r)
      && (h in r.tables <==> h in s.tables)
      && (h in r.tables ==> r.tables[h] == s.tables[h])
      && (h in r.sales <==> h in s.sales)
      && (h in r.sales ==> r.sales[h] == s.sales[h])
  {
    KeptPendingMembers(s, Pending(s), block.number);
  }

  /** How the block splits the pending list: nothing joins it, an entry
      from an earlier block leaves it, and an entry from the current block or
      a later one stays. */
  lemma HandleBlockPendingSplit(s: Store, block: Block)
    requires Finalizable(s, Pending(s))
    ensures forall h :: h in Pending(HandleBlock(s, block)) ==> h in Pending(s)
    ensures forall h :: h in Pending(s) && s.tables[h].blockNumber < block.number ==>
              h !in Pending(HandleBlock(s, block))
    ensures forall h :: h in Pending(s) && s.tables[h].blockNumber >= block.number ==>
              h in Pending(HandleBlock(s, block))
  {
    KeptPendingMembers(s, Pending(s), block.number);
  }
}
