/** Both directions together: when a validated trade commits and what it leaves behind. */
module TradeOutcome {
  import opened Common
  import opened TradeRows
  import opened TradeValidation
  import opened TradeSettlement
  import Items = InventoryManager
  import Inv = Inventory

  /** The giver's rows once everything offered has been taken out. */
  function Debited(t: Table, giver: int, offers: seq<Offer>): Table
    decreases |offers|
  {
    if offers == [] then t
    else match Decrease(t, giver, offers[0])
      case None => t
      case Some(u) => Debited(u, giver, offers[1..])
  }

  lemma {:induction false} DebitedSameRows(t: Table, u: Table, giver: int, offers: seq<Offer>)
    requires SameRows(t, u, giver)
    ensures SameRows(Debited(t, giver, offers), Debited(u, giver, offers), giver)
    decreases |offers|
  {
    if offers != [] {
      var v, w := Decrease(t, giver, offers[0]), Decrease(u, giver, offers[0]);
      assert v.Some? <==> w.Some?;
      if v.Some? {
        assert SameRows(v.value, w.value, giver);
        DebitedSameRows(v.value, w.value, giver, offers[1..]);
      }
    }
  }

  /** What a transfer does to the giver does not depend on the taker. */
  lemma {:induction false} TransferDebits(t: Table, giver: int, taker: int, offers: seq<Offer>)
    requires ValidTable(t) && giver != taker && Transfer(t, giver, taker, offers).Some?
    ensures ValidTable(Transfer(t, giver, taker, offers).value)
    ensures SameRows(Transfer(t, giver, taker, offers).value, Debited(t, giver, offers), giver)
    decreases |offers|
  {
    if offers != [] {
      TransferUnfold(t, giver, taker, offers);
      var u := Decrease(t, giver, offers[0]).value;
      var v := Increase(u, taker, offers[0]).value;
      DecreaseRows(t, giver, offers[0]);
      IncreaseRows(u, taker, offers[0]);
      DebitedSameRows(v, u, giver, offers[1..]);
      TransferDebits(v, giver, taker, offers[1..]);
    }
  }

  /** Receiving first never spoils what one gives next. */
  lemma {:induction false} TransferKeepsTakerCovered(t: Table, giver: int, taker: int, offers: seq<Offer>,
      back: seq<Offer>)
    requires ValidTable(t) && giver != taker && Transfer(t, giver, taker, offers).Some? && Covered(t, taker, back)
    ensures Covered(Transfer(t, giver, taker, offers).value, taker, back)
    decreases |offers|
  {
    if offers != [] {
      TransferUnfold(t, giver, taker, offers);
      var u := Decrease(t, giver, offers[0]).value;
      DecreaseRows(t, giver, offers[0]);
      IncreaseCovered(u, taker, offers[0], taker, back);
      IncreaseRows(u, taker, offers[0]);
      TransferKeepsTakerCovered(Increase(u, taker, offers[0]).value, giver, taker, offers[1..], back);
    }
  }

  /** Every filled in-memory slot has its equal row. */
  ghost predicate Mirrored(t: Table, charId: int, inv: Items.Bags) {
    forall ty, pos | ty in inv && pos in inv[ty].slots && inv[ty].slots[pos].itemId > 0
        && inv[ty].slots[pos].count > 0 ::
      Key(charId, ty, pos) in t
      && t[Key(charId, ty, pos)] == Row(inv[ty].slots[pos].itemId, inv[ty].slots[pos].count)
  }

  /** Inventories are made from stored metadata, which knows no negative type. */
  predicate KnownTypes(inv: Items.Bags) { forall ty | ty in inv :: ty >= 0 }

  /** What uploads guarantee of a stored item list (see TradeSessions). */
  ghost predicate Stored(catalog: Items.Catalog, offers: seq<Offer>) {
    WellTyped(catalog, offers) && forall o | o in offers :: WellFormedOffer(o) && o.amount <= INT_MAX
  }

  lemma ValidIsCovered(catalog: Items.Catalog, t: Table, charId: int, inv: Items.Bags, offers: seq<Offer>)
    requires Mirrored(t, charId, inv) && Stored(catalog, offers) && Valid(catalog, inv, offers)
    ensures Covered(t, charId, offers)
  {
    WellTypedRetypes(catalog, offers);
    forall o | o in offers
      ensures RowHolds(t, Key(charId, o.inventoryType, o.slot), o.itemId, SumOf(offers, KeyOf(o)))
    {
      var i :| 0 <= i < |offers| && offers[i] == o;
      SumOfAtLeast(offers, i);
    }
  }

  /** The exact condition, on the rows and offers before the call. */
  ghost predicate Settles(t: Table, a: int, b: int, aItems: seq<Offer>, bItems: seq<Offer>) {
    Fits(t, b, aItems) && Fits(Debited(t, a, aItems), a, bItems)
  }

  /** An item of unknown type is in no inventory, so the last check has refused it. */
  lemma AcceptedIsSane(catalog: Items.Catalog, inv: Items.Bags, offers: seq<Offer>)
    requires KnownTypes(inv) && forall id | id in catalog :: catalog[id].inventoryType <= TYPE_MAX
    requires Stored(catalog, offers) && Valid(catalog, inv, offers)
    ensures Sane(offers)
  {
    WellTypedRetypes(catalog, offers);
  }

  /** A trade whose items both inventories back, and whose rows mirror them, goes through exactly
      when the columns have room: repeated offers on one slot, merges into existing rows, deleted
      rows and fresh rows never make it fail. */
  lemma ValidatedTradeSettlesIff(catalog: Items.Catalog, t: Table, a: int, b: int, invA: Items.Bags, invB: Items.Bags,
                                 aItems: seq<Offer>, bItems: seq<Offer>)
    requires ValidTable(t) && a != b && a > 0 && b > 0
    requires Mirrored(t, a, invA) && Mirrored(t, b, invB) && KnownTypes(invA) && KnownTypes(invB)
    requires forall id | id in catalog :: catalog[id].inventoryType <= TYPE_MAX
    requires Stored(catalog, aItems) && Stored(catalog, bItems)
    requires Valid(catalog, invA, aItems) && Valid(catalog, invB, bItems)
    ensures Exchange(t, a, b, aItems, bItems).Some? <==> Settles(t, a, b, aItems, bItems)
  {
    ValidIsCovered(catalog, t, a, invA, aItems);
    ValidIsCovered(catalog, t, b, invB, bItems);
    AcceptedIsSane(catalog, invA, aItems);
    AcceptedIsSane(catalog, invB, bItems);
    TransferIff(t, a, b, aItems);
    var first := Transfer(t, a, b, aItems);
    if first.Some? {
      TransferDebits(t, a, b, aItems);
      TransferKeepsTakerCovered(t, a, b, aItems, bItems);
      TransferIff(first.value, b, a, bItems);
      SameRowsFit(first.value, Debited(t, a, aItems), a, bItems);
    }
  }

  /** A committed trade moves exactly the offered amounts of every kind, for every character. */
  lemma ExchangeTotals(t: Table, a: int, b: int, aItems: seq<Offer>, bItems: seq<Offer>, c: int, k: Kind)
    requires ValidTable(t) && a != b && Exchange(t, a, b, aItems, bItems).Some?
    ensures Total(Exchange(t, a, b, aItems, bItems).value, c, k)
            == Total(t, c, k) + if c == a then OfferedKind(bItems, k) - OfferedKind(aItems, k)
                                else if c == b then OfferedKind(aItems, k) - OfferedKind(bItems, k) else 0
  {
    TransferTotal(t, a, b, aItems, c, k);
    TransferTotal(Transfer(t, a, b, aItems).value, b, a, bItems, c, k);
  }

  /** A committed trade leaves no row with nothing in it. */
  lemma ExchangeKeepsNoEmptyRows(t: Table, a: int, b: int, aItems: seq<Offer>, bItems: seq<Offer>)
    requires ValidTable(t) && NoEmptyRows(t) && Exchange(t, a, b, aItems, bItems).Some?
    ensures NoEmptyRows(Exchange(t, a, b, aItems, bItems).value)
  {
    TransferKeepsNoEmptyRows(t, a, b, aItems);
    TransferKeepsNoEmptyRows(Transfer(t, a, b, aItems).value, b, a, bItems);
  }

  /** Conservation: what the two players own together of any kind is what they owned before. */
  lemma ExchangeConserves(t: Table, a: int, b: int, aItems: seq<Offer>, bItems: seq<Offer>, k: Kind)
    requires ValidTable(t) && a != b && Exchange(t, a, b, aItems, bItems).Some?
    ensures var u := Exchange(t, a, b, aItems, bItems).value;
            Total(u, a, k) + Total(u, b, k) == Total(t, a, k) + Total(t, b, k)
  {
    ExchangeTotals(t, a, b, aItems, bItems, a, k);
    ExchangeTotals(t, a, b, aItems, bItems, b, k);
  }

  lemma {:induction false} TransferOthers(t: Table, giver: int, taker: int, offers: seq<Offer>, c: int)
    requires ValidTable(t) && c != giver && c != taker && Transfer(t, giver, taker, offers).Some?
    ensures ValidTable(Transfer(t, giver, taker, offers).value)
    ensures SameRows(t, Transfer(t, giver, taker, offers).value, c)
    decreases |offers|
  {
    if offers != [] {
      TransferUnfold(t, giver, taker, offers);
      var u := Decrease(t, giver, offers[0]).value;
      DecreaseRows(t, giver, offers[0]);
      IncreaseRows(u, taker, offers[0]);
      TransferOthers(Increase(u, taker, offers[0]).value, giver, taker, offers[1..], c);
    }
  }

  /** Nobody else's rows are touched. */
  lemma ExchangeOthers(t: Table, a: int, b: int, aItems: seq<Offer>, bItems: seq<Offer>, c: int)
    requires ValidTable(t) && c != a && c != b && Exchange(t, a, b, aItems, bItems).Some?
    ensures SameRows(t, Exchange(t, a, b, aItems, bItems).value, c)
  {
    TransferOthers(t, a, b, aItems, c);
    TransferOthers(Transfer(t, a, b, aItems).value, b, a, bItems, c);
  }

  /** One inventory of type 1 with one filled slot. */
  function OneSlot(itemId: int, count: int): Items.Bags {
    map[1 := Items.Bag(map[0 := Inv.Slot(1, 0, true, itemId, count)], 1, 24, 24)]
  }

  const FULL_CATALOG: Items.Catalog := map[7 := Items.ItemData(true, INT_MAX, 1, 0)]

  const FULL_ROWS: Table := map[Key(1, 1, 0) := Row(7, 1), Key(2, 1, 0) := Row(7, INT_MAX)]

  const ONE_GIVEN: seq<Offer> := [Offer(7, 1, 1, 0)]

  lemma FullRowIsAccepted()
    ensures Stored(FULL_CATALOG, ONE_GIVEN) && Valid(FULL_CATALOG, OneSlot(7, 1), ONE_GIVEN)
    ensures Valid(FULL_CATALOG, OneSlot(7, INT_MAX), [])
  {
    WellTypedRetypes(FULL_CATALOG, ONE_GIVEN);
    assert ONE_GIVEN[1..] == [] && OfferedAt(ONE_GIVEN, SlotKey(1, 0), 7) == 1;
  }

  lemma FullRowHasNoRoom()
    ensures !Fits(FULL_ROWS, 2, ONE_GIVEN)
  {
    assert TargetCount(FULL_ROWS, 2, Kind(1, 7)) == INT_MAX by {
      assert HoldsKind(FULL_ROWS, 2, Kind(1, 7), 0);
      assert forall i | i < 0 :: !HoldsKind(FULL_ROWS, 2, Kind(1, 7), i);
      FirstSlotIs(FULL_ROWS, 2, Kind(1, 7), SLOT_MIN, 0);
    }
    assert ONE_GIVEN[1..] == [] && OfferedKind(ONE_GIVEN, Kind(1, 7)) == 1;
  }

  /** Acceptance alone does not make a trade commit: merging into a full row overflows its INT column. */
  lemma FullRowDefeatsTrade()
    ensures Valid(FULL_CATALOG, OneSlot(7, 1), ONE_GIVEN) && Valid(FULL_CATALOG, OneSlot(7, INT_MAX), [])
    ensures Mirrored(FULL_ROWS, 1, OneSlot(7, 1)) && Mirrored(FULL_ROWS, 2, OneSlot(7, INT_MAX))
            && ValidTable(FULL_ROWS)
    ensures Exchange(FULL_ROWS, 1, 2, ONE_GIVEN, []).None?
  {
    FullRowIsAccepted();
    FullRowHasNoRoom();
    ValidatedTradeSettlesIff(FULL_CATALOG, FULL_ROWS, 1, 2, OneSlot(7, 1), OneSlot(7, INT_MAX), ONE_GIVEN, []);
  }
}
