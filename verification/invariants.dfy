/** The store-level invariant the handlers rely on, and its preservation by
    each of them.  It is what makes every `!` load of the block handler
    succeed, and what keeps freshly allocated ids from colliding. */
module Invariants {
  import opened Options
  import opened Schema
  import opened Utils
  import opened SaleMatcher
  import opened BlockHandler
  import ERC721Mapping
  import ERC20Mapping

  /** Every table is either pending or already sold, never both; no hash is
      pending twice; every sale points at its own table. */
  ghost predicate PendingInvariant(s: Store) {
    && NoDuplicates(Pending(s))
    && (forall h :: h in s.tables <==> h in Pending(s) || h in s.sales)
    && (forall h :: h in Pending(s) ==> h !in s.sales)
    && (forall h :: h in s.sales ==> s.sales[h].transfersLookupTable == h)
  }

  /** Every listed transfer exists. */
  ghost predicate ChildrenExist(s: Store) {
    && (forall h, i :: h in s.tables && i in s.tables[h].erc20Transfers ==> i in s.erc20)
    && (forall h, i :: h in s.tables && i in s.tables[h].erc721Transfers ==> i in s.erc721)
  }

  /** Every stored transfer is listed by some table. */
  ghost predicate ChildrenOwned(s: Store) {
    && (forall i :: i in s.erc20 ==> exists h :: h in s.tables && i in s.tables[h].erc20Transfers)
    && (forall i :: i in s.erc721 ==> exists h :: h in s.tables && i in s.tables[h].erc721Transfers)
  }

  /** No transfer is listed by two tables. */
  ghost predicate ChildrenUnshared(s: Store) {
    forall h1, h2 :: h1 in s.tables && h2 in s.tables && h1 != h2 ==>
      ChildrenDisjoint(s.tables[h1], s.tables[h2])
  }

  /** Every stored transfer id is below its counter, so the next allocated
      id is free. */
  ghost predicate IdsBelowCounters(s: Store) {
    var app := LoadOrCreateApplication(s.app);
    && (forall i :: i in s.erc20 ==> i < app.nextERC20TransferID)
    && (forall i :: i in s.erc721 ==> i < app.nextERC721TransferID)
  }

  ghost predicate Valid(s: Store) {
    && PendingInvariant(s)
    && ChildrenExist(s)
    && ChildrenOwned(s)
    && ChildrenUnshared(s)
    && IdsBelowCounters(s)
  }

  lemma EmptyStoreValid()
    ensures Valid(EmptyStore)
  {
  }

  /** A valid store gives the block handler everything its loads need. */
  lemma ValidIsFinalizable(s: Store)
    requires Valid(s)
    ensures Finalizable(s, Pending(s))
  {
    forall h | h in Pending(s)
      ensures h in s.tables && Loadable(s.erc20, s.erc721, s.tables[h])
    {
      var t := s.tables[h];
      if |t.erc20Transfers| > 0 && |t.erc721Transfers| > 0 {
        assert t.erc721Transfers[0] in t.erc721Transfers;
        forall k | 0 <= k < |t.erc20Transfers| ensures t.erc20Transfers[k] in s.erc20 {
          assert t.erc20Transfers[k] in t.erc20Transfers;
        }
      }
    }
  }

  lemma AppendFreshKeepsNoDuplicates<T>(xs: seq<T>, x: T)
    requires NoDuplicates(xs) && x !in xs
    ensures NoDuplicates(xs + [x])
  {
  }

  /** A payment transfer keeps the store valid, and the id it allocates was
      free. */
  lemma HandleERC20TransferPreservesValid(names: NameTable, s: Store, e: ERC20TransferEvent)
    requires Valid(s)
    ensures LoadOrCreateApplication(s.app).nextERC20TransferID !in s.erc20
    ensures Valid(ERC20Mapping.HandleERC20Transfer(names, s, e))
  {
    ERC20Pending(names, s, e);
    ERC20ChildrenExist(names, s, e);
    ERC20ChildrenOwned(names, s, e);
    ERC20ChildrenUnshared(names, s, e);
  }

  lemma ERC20Pending(names: NameTable, s: Store, e: ERC20TransferEvent)
    requires Valid(s)
    ensures PendingInvariant(ERC20Mapping.HandleERC20Transfer(names, s, e))
  {
    var h := e.transaction.hash;
    if h !in s.tables {
      AppendFreshKeepsNoDuplicates(Pending(s), h);
    }
  }

  lemma ERC20ChildrenExist(names: NameTable, s: Store, e: ERC20TransferEvent)
    requires Valid(s)
    ensures ChildrenExist(ERC20Mapping.HandleERC20Transfer(names, s, e))
  {
  }

  lemma ERC20ChildrenOwned(names: NameTable, s: Store, e: ERC20TransferEvent)
    requires Valid(s)
    ensures ChildrenOwned(ERC20Mapping.HandleERC20Transfer(names, s, e))
  {
    var r := ERC20Mapping.HandleERC20Transfer(names, s, e);
    var id := LoadOrCreateApplication(s.app).nextERC20TransferID;
    var h := e.transaction.hash;
    forall i | i in r.erc20
      ensures exists h' :: h' in r.tables && i in r.tables[h'].erc20Transfers
    {
      if i == id {
        assert i in r.tables[h].erc20Transfers;
      } else {
        var h' :| h' in s.tables && i in s.tables[h'].erc20Transfers;
        assert i in r.tables[h'].erc20Transfers;
      }
    }
    forall i | i in r.erc721
      ensures exists h' :: h' in r.tables && i in r.tables[h'].erc721Transfers
    {
      var h' :| h' in s.tables && i in s.tables[h'].erc721Transfers;
      assert i in r.tables[h'].erc721Transfers;
    }
  }

  lemma ERC20ChildrenUnshared(names: NameTable, s: Store, e: ERC20TransferEvent)
    requires Valid(s)
    ensures ChildrenUnshared(ERC20Mapping.HandleERC20Transfer(names, s, e))
  {
    var r := ERC20Mapping.HandleERC20Transfer(names, s, e);
    var id := LoadOrCreateApplication(s.app).nextERC20TransferID;
    var h := e.transaction.hash;
    forall h1, h2 | h1 in r.tables && h2 in r.tables && h1 != h2
      ensures ChildrenDisjoint(r.tables[h1], r.tables[h2])
    {
      if h1 == h || h2 == h {
        var other := if h1 == h then h2 else h1;
        assert other in s.tables;
        forall i | i in s.tables[other].erc20Transfers ensures i != id {
          assert i in s.erc20;
        }
        assert ChildrenDisjoint(r.tables[h], r.tables[other]);
      }
    }
  }

  /** An asset transfer keeps the store valid, on either path, and the id it
      allocates was free. */
  lemma HandleERC721TransferPreservesValid(names: NameTable, s: Store, e: ERC721TransferEvent)
    requires Valid(s) && e.transaction.to.Some?
    ensures LoadOrCreateApplication(s.app).nextERC721TransferID !in s.erc721
    ensures Valid(ERC721Mapping.HandleERC721Transfer(names, s, e))
  {
    ERC721Pending(names, s, e);
    ERC721ChildrenExist(names, s, e);
    ERC721ChildrenOwned(names, s, e);
    ERC721ChildrenUnshared(names, s, e);
  }

  lemma ERC721Pending(names: NameTable, s: Store, e: ERC721TransferEvent)
    requires Valid(s) && e.transaction.to.Some?
    ensures PendingInvariant(ERC721Mapping.HandleERC721Transfer(names, s, e))
  {
    var h := e.transaction.hash;
    if h !in s.tables && e.transaction.value == 0 {
      AppendFreshKeepsNoDuplicates(Pending(s), h);
    }
  }

  lemma ERC721ChildrenExist(names: NameTable, s: Store, e: ERC721TransferEvent)
    requires Valid(s) && e.transaction.to.Some?
    ensures ChildrenExist(ERC721Mapping.HandleERC721Transfer(names, s, e))
  {
  }

  lemma ERC721ChildrenOwned(names: NameTable, s: Store, e: ERC721TransferEvent)
    requires Valid(s) && e.transaction.to.Some?
    ensures ChildrenOwned(ERC721Mapping.HandleERC721Transfer(names, s, e))
  {
    var r := ERC721Mapping.HandleERC721Transfer(names, s, e);
    var id := LoadOrCreateApplication(s.app).nextERC721TransferID;
    var h := e.transaction.hash;
    forall i | i in r.erc721
      ensures exists h' :: h' in r.tables && i in r.tables[h'].erc721Transfers
    {
      if i == id {
        assert i in r.tables[h].erc721Transfers;
      } else {
        var h' :| h' in s.tables && i in s.tables[h'].erc721Transfers;
        assert i in r.tables[h'].erc721Transfers;
      }
    }
    forall i | i in r.erc20
      ensures exists h' :: h' in r.tables && i in r.tables[h'].erc20Transfers
    {
      var h' :| h' in s.tables && i in s.tables[h'].erc20Transfers;
      assert i in r.tables[h'].erc20Transfers;
    }
  }

  lemma ERC721ChildrenUnshared(names: NameTable, s: Store, e: ERC721TransferEvent)
    requires Valid(s) && e.transaction.to.Some?
    ensures ChildrenUnshared(ERC721Mapping.HandleERC721Transfer(names, s, e))
  {
    var r := ERC721Mapping.HandleERC721Transfer(names, s, e);
    var id := LoadOrCreateApplication(s.app).nextERC721TransferID;
    var h := e.transaction.hash;
    forall h1, h2 | h1 in r.tables && h2 in r.tables && h1 != h2
      ensures ChildrenDisjoint(r.tables[h1], r.tables[h2])
    {
      if h1 == h || h2 == h {
        var other := if h1 == h then h2 else h1;
        assert other in s.tables;
        forall i | i in s.tables[other].erc721Transfers ensures i != id {
          assert i in s.erc721;
        }
        assert ChildrenDisjoint(r.tables[h], r.tables[other]);
      }
    }
  }

  /** The block handler keeps the store valid, and never changes or removes
      a sale that already existed. */
  lemma HandleBlockPreservesValid(s: Store, block: Block)
    requires Valid(s)
    ensures Finalizable(s, Pending(s)) && Valid(HandleBlock(s, block))
    ensures Finalizable(s, Pending(s)) &&
            forall h :: h in s.sales ==> h in HandleBlock(s, block).sales
                                         && HandleBlock(s, block).sales[h] == s.sales[h]
  {
    ValidIsFinalizable(s);
    KeptPendingMembers(s, Pending(s), block.number);
    BlockPending(s, block);
    BlockChildrenExist(s, block);
    BlockChildrenOwned(s, block);
  }

  lemma BlockPending(s: Store, block: Block)
    requires Valid(s)
    ensures Finalizable(s, Pending(s)) && PendingInvariant(HandleBlock(s, block))
  {
    ValidIsFinalizable(s);
    KeptPendingMembers(s, Pending(s), block.number);
    var r := HandleBlock(s, block);
    forall h
      ensures h in r.tables <==> h in Pending(r) || h in r.sales
      ensures h in Pending(r) ==> h !in r.sales
      ensures h in r.sales ==> r.sales[h].transfersLookupTable == h
    {
      if h in Pending(s) {
        HandleBlockOn(s, block, h);
      } else {
        HandleBlockOff(s, block, h);
      }
    }
  }

  lemma BlockChildrenExist(s: Store, block: Block)
    requires Valid(s)
    ensures Finalizable(s, Pending(s)) && ChildrenExist(HandleBlock(s, block))
  {
    ValidIsFinalizable(s);
    var r := HandleBlock(s, block);
    var p := Pending(s);
    var c := block.number;
    forall h, i | h in r.tables && i in r.tables[h].erc20Transfers ensures i in r.erc20 {
      assert i in s.erc20;
      forall h' | h' in p && Decide(s, h', c).Drop? ensures i !in s.tables[h'].erc20Transfers {
        assert ChildrenDisjoint(s.tables[h], s.tables[h']);
      }
    }
    forall h, i | h in r.tables && i in r.tables[h].erc721Transfers ensures i in r.erc721 {
      assert i in s.erc721;
      forall h' | h' in p && Decide(s, h', c).Drop? ensures i !in s.tables[h'].erc721Transfers {
        assert ChildrenDisjoint(s.tables[h], s.tables[h']);
      }
    }
  }

  lemma BlockChildrenOwned(s: Store, block: Block)
    requires Valid(s)
    ensures Finalizable(s, Pending(s)) && ChildrenOwned(HandleBlock(s, block))
  {
    ValidIsFinalizable(s);
    var r := HandleBlock(s, block);
    forall i | i in r.erc20 ensures exists h :: h in r.tables && i in r.tables[h].erc20Transfers {
      var h :| h in s.tables && i in s.tables[h].erc20Transfers;
      if h in Pending(s) {
        HandleBlockOn(s, block, h);
      } else {
        HandleBlockOff(s, block, h);
      }
      assert i in r.tables[h].erc20Transfers;
    }
    forall i | i in r.erc721 ensures exists h :: h in r.tables && i in r.tables[h].erc721Transfers {
      var h :| h in s.tables && i in s.tables[h].erc721Transfers;
      if h in Pending(s) {
        HandleBlockOn(s, block, h);
      } else {
        HandleBlockOff(s, block, h);
      }
      assert i in r.tables[h].erc721Transfers;
    }
  }
}
