/** The last check before a trade executes: do the in-memory slots still hold what is offered? */
module TradeValidation {
  import opened Common
  import opened TradeRows
  import Items = InventoryManager

  datatype SlotKey = SlotKey(inventoryType: int, slot: int)

  predicate HasItemBySlot(inv: Items.Bags, key: SlotKey, itemId: int, count: int) {
    Items.HasItem(inv, key.inventoryType, key.slot, itemId, count)
  }

  /** Total amount of one item offered out of one slot. */
  function OfferedAt(offers: seq<Offer>, key: SlotKey, itemId: int): int {
    if offers == [] then 0
    else OfferedAt(offers[1..], key, itemId)
         + if offers[0].inventoryType == key.inventoryType && offers[0].slot == key.slot && offers[0].itemId == itemId
           then offers[0].amount else 0
  }

  predicate WellFormedOffer(o: Offer) { o.itemId > 0 && o.amount > 0 && o.slot >= 0 }

  /** The type stored with an offer is the server's own, not the client's. */
  predicate WellTyped(catalog: Items.Catalog, offers: seq<Offer>) {
    forall o | o in offers :: o.itemId in catalog && o.inventoryType == catalog[o.itemId].inventoryType
  }

  ghost predicate Holds(inv: Items.Bags, offers: seq<Offer>) {
    forall o | o in offers :: var key := SlotKey(o.inventoryType, o.slot);
                              OfferedAt(offers, key, o.itemId) <= INT_MAX
                              && HasItemBySlot(inv, key, o.itemId, OfferedAt(offers, key, o.itemId))
  }

  /** What acceptance means: every offer is sane and every slot covers the sum taken out of it. */
  ghost predicate Valid(catalog: Items.Catalog, inv: Items.Bags, offers: seq<Offer>) {
    && (forall o | o in offers :: WellFormedOffer(o) && o.itemId in catalog)
    && Holds(inv, Retype(catalog, offers))
  }

  function Retype(catalog: Items.Catalog, offers: seq<Offer>): (r: seq<Offer>)
    requires forall o | o in offers :: o.itemId in catalog
    ensures |r| == |offers|
    ensures forall i | 0 <= i < |r| :: r[i] == offers[i].(inventoryType := catalog[offers[i].itemId].inventoryType)
  {
    seq(|offers|, i requires 0 <= i < |offers| => offers[i].(inventoryType := catalog[offers[i].itemId].inventoryType))
  }

  lemma WellTypedRetypes(catalog: Items.Catalog, offers: seq<Offer>)
    requires WellTyped(catalog, offers)
    ensures Retype(catalog, offers) == offers
  {
    assert forall i | 0 <= i < |offers| :: offers[i] in offers;
  }

  datatype OfferKey = OfferKey(key: SlotKey, itemId: int)

  function KeyOf(o: Offer): OfferKey { OfferKey(SlotKey(o.inventoryType, o.slot), o.itemId) }

  function SumOf(xs: seq<Offer>, k: OfferKey): int { OfferedAt(xs, k.key, k.itemId) }

  lemma {:induction false} SumOfAppend(xs: seq<Offer>, o: Offer, k: OfferKey)
    ensures SumOf(xs + [o], k) == SumOf(xs, k) + if KeyOf(o) == k then o.amount else 0
  {
    if xs == [] {
      assert xs + [o] == [o] && [o][1..] == [];
    } else {
      assert (xs + [o])[1..] == xs[1..] + [o];
      SumOfAppend(xs[1..], o, k);
    }
  }

  lemma {:induction false} OfferedAtBound(xs: seq<Offer>, i: nat, key: SlotKey, itemId: int)
    requires i <= |xs| && forall o | o in xs :: o.amount > 0
    ensures 0 <= OfferedAt(xs[..i], key, itemId) <= OfferedAt(xs, key, itemId)
  {
    if xs == [] || i == 0 {
      if xs != [] { OfferedAtBound(xs[1..], 0, key, itemId); }
    } else {
      assert xs[..i][1..] == xs[1..][..i - 1];
      OfferedAtBound(xs[1..], i - 1, key, itemId);
    }
  }

  lemma {:induction false} NotOffered(xs: seq<Offer>, key: SlotKey, itemId: int)
    requires forall o | o in xs :: o.itemId != itemId || SlotKey(o.inventoryType, o.slot) != key
    ensures OfferedAt(xs, key, itemId) == 0
  {
    if xs != [] {
      assert xs[0] in xs;
      NotOffered(xs[1..], key, itemId);
    }
  }

  // ---------------------------------------------------------------- the two loops

  /** `offered` holds exactly the sums of `xs`, none above INT_MAX. */
  ghost predicate Sums(offered: map<OfferKey, int>, xs: seq<Offer>) {
    && offered.Keys == (set o | o in xs :: KeyOf(o))
    && (forall k | k in offered :: offered[k] == SumOf(xs, k) <= INT_MAX)
  }

  lemma SumGrows(offered: map<OfferKey, int>, xs: seq<Offer>, o: Offer)
    requires Sums(offered, xs)
    ensures var k := KeyOf(o);
            var total := (if k in offered then offered[k] else 0) + o.amount;
            && total == SumOf(xs + [o], k)
            && (total <= INT_MAX ==> Sums(offered[k := total], xs + [o]))
  {
    var k := KeyOf(o);
    if k !in offered { NotOffered(xs, k.key, k.itemId); }
    forall j: OfferKey ensures SumOf(xs + [o], j) == SumOf(xs, j) + if k == j then o.amount else 0 {
      SumOfAppend(xs, o, j);
    }
    assert (set p | p in xs + [o] :: KeyOf(p)) == (set p | p in xs :: KeyOf(p)) + {k};
  }

  /** A prefix already offers too much, so the whole does. */
  lemma TooMuch(xs: seq<Offer>, i: nat)
    requires i < |xs| && forall o | o in xs :: o.amount > 0
    requires SumOf(xs[..i + 1], KeyOf(xs[i])) > INT_MAX
    ensures forall inv :: !Holds(inv, xs)
  {
    var k := KeyOf(xs[i]);
    OfferedAtBound(xs, i + 1, k.key, k.itemId);
    assert xs[i] in xs;
  }

  lemma PrefixTooMuch(catalog: Items.Catalog, items: seq<Offer>, i: nat)
    requires i < |items| && forall o | o in items[..i + 1] :: o.itemId in catalog
    requires SumOf(Retype(catalog, items[..i + 1]), KeyOf(Retype(catalog, items[..i + 1])[i])) > INT_MAX
    ensures forall inv :: !Valid(catalog, inv, items)
  {
    if forall o | o in items :: WellFormedOffer(o) && o.itemId in catalog {
      assert Retype(catalog, items)[..i + 1] == Retype(catalog, items[..i + 1]);
      TooMuch(Retype(catalog, items), i);
    }
  }

  /** The accumulating loop over the items; `None` on the first item refused. */
  method Accumulate(catalog: Items.Catalog, items: seq<Offer>) returns (sums: Option<map<OfferKey, int>>)
    ensures sums.Some? ==> && (forall o | o in items :: WellFormedOffer(o) && o.itemId in catalog)
                           && Sums(sums.value, Retype(catalog, items))
    ensures sums.None? ==> forall inv :: !Valid(catalog, inv, items)
  {
    var offered: map<OfferKey, int> := map[];
    for i := 0 to |items|
      invariant forall o | o in items[..i] :: WellFormedOffer(o) && o.itemId in catalog
      invariant Sums(offered, Retype(catalog, items[..i]))
    {
      var o := items[i];
      assert o in items;
      if o.itemId <= 0 || o.amount <= 0 || o.slot < 0 || o.itemId !in catalog { return None; }
      var k := OfferKey(SlotKey(catalog[o.itemId].inventoryType, o.slot), o.itemId);
      var total := (if k in offered then offered[k] else 0) + o.amount;
      ghost var typed := o.(inventoryType := catalog[o.itemId].inventoryType);
      assert items[..i + 1] == items[..i] + [o];
      assert Retype(catalog, items[..i + 1]) == Retype(catalog, items[..i]) + [typed];
      SumGrows(offered, Retype(catalog, items[..i]), typed);
      offered := offered[k := total];
      if total > INT_MAX {
        PrefixTooMuch(catalog, items, i);
        return None;
      }
    }
    assert items[..|items|] == items;
    return Some(offered);
  }

  /** The loop over the accumulated entries. */
  method CheckOffered(inv: Items.InventoryManager, offered: map<OfferKey, int>) returns (ok: bool)
    ensures ok <==> forall k | k in offered :: HasItemBySlot(inv.View(), k.key, k.itemId, offered[k])
  {
    var rest := offered.Keys;
    while rest != {}
      invariant rest <= offered.Keys
      invariant forall k | k in offered && k !in rest :: HasItemBySlot(inv.View(), k.key, k.itemId, offered[k])
      decreases |rest|
    {
      var k :| k in rest;
      var has := inv.HasItemBySlot(k.key.inventoryType, k.key.slot, k.itemId, offered[k]);
      if !has { return false; }
      rest := rest - {k};
    }
    return true;
  }

  /** Checking the accumulated entries is checking every offer. */
  lemma SumsDecide(catalog: Items.Catalog, inv: Items.Bags, items: seq<Offer>, offered: map<OfferKey, int>)
    requires (forall o | o in items :: WellFormedOffer(o) && o.itemId in catalog)
             && Sums(offered, Retype(catalog, items))
    ensures Valid(catalog, inv, items) <==> forall k | k in offered :: HasItemBySlot(inv, k.key, k.itemId, offered[k])
  {
    var typed := Retype(catalog, items);
    forall k | k in offered ensures exists o :: o in typed && KeyOf(o) == k {
      assert k in offered.Keys;
    }
    forall o | o in typed ensures KeyOf(o) in offered {
      assert KeyOf(o) in offered.Keys;
    }
  }

  /** The last check: accumulate, then look every sum up. */
  method ValidateTradeItems(catalog: Items.Catalog, inv: Items.InventoryManager, items: seq<Offer>) returns (ok: bool)
    ensures ok <==> Valid(catalog, inv.View(), items)
  {
    var sums := Accumulate(catalog, items);
    if sums.None? { return false; }
    SumsDecide(catalog, inv.View(), items, sums.value);
    ok := CheckOffered(inv, sums.value);
  }
}
