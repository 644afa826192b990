/** A validated trade settles: exactly when it commits, and what it does to everyone's rows. */
module TradeSettlement {
  import opened Common
  import opened TradeRows
  import opened TradeValidation

  // ---------------------------------------------------------------- one player's rows

  /** The two tables agree on every row of one player. */
  ghost predicate SameRows(t: Table, u: Table, charId: int) {
    forall k: Key | k.charId == charId :: (k in t <==> k in u) && (k in t ==> t[k] == u[k])
  }

  lemma {:induction false} SameFirstSlot(t: Table, u: Table, charId: int, kind: Kind, s: int)
    requires SameRows(t, u, charId)
    ensures FirstSlotFrom(t, charId, kind, s) == FirstSlotFrom(u, charId, kind, s)
    decreases SLOT_MAX + 1 - s
  {
    if s <= SLOT_MAX {
      SameFirstSlot(t, u, charId, kind, s + 1);
    }
  }

  lemma {:induction false} SameNextSlot(t: Table, u: Table, charId: int, inventoryType: int, s: int)
    requires SameRows(t, u, charId) && SLOT_MIN - 1 <= s <= SLOT_MAX
    ensures NextSlotUpTo(t, charId, inventoryType, s) == NextSlotUpTo(u, charId, inventoryType, s)
    decreases s - SLOT_MIN + 1
  {
    if s >= SLOT_MIN {
      SameNextSlot(t, u, charId, inventoryType, s - 1);
    }
  }

  /** How many of a kind a player has, over all slots from `s` on. */
  function TotalFrom(t: Table, charId: int, kind: Kind, s: int): int
    decreases SLOT_MAX + 1 - s, charId
  {
    if s > SLOT_MAX then 0
    else TotalFrom(t, charId, kind, s + 1)
         + if HoldsKind(t, charId, kind, s) then t[Key(charId, kind.inventoryType, s)].count else 0
  }

  function Total(t: Table, charId: int, kind: Kind): int { TotalFrom(t, charId, kind, SLOT_MIN) }

  function CountAt(t: Table, charId: int, kind: Kind, s: int): int {
    if HoldsKind(t, charId, kind, s) then t[Key(charId, kind.inventoryType, s)].count else 0
  }

  /** Tables that differ for one kind in at most one slot differ in total by that slot's change. */
  lemma {:induction false} TotalChange(t: Table, u: Table, charId: int, kind: Kind, at: int, s: int)
    requires forall i | i != at :: CountAt(t, charId, kind, i) == CountAt(u, charId, kind, i)
    requires at <= SLOT_MAX
    ensures TotalFrom(u, charId, kind, s) - TotalFrom(t, charId, kind, s)
            == if s <= at then CountAt(u, charId, kind, at) - CountAt(t, charId, kind, at) else 0
    decreases SLOT_MAX + 1 - s
  {
    if s <= SLOT_MAX {
      TotalChange(t, u, charId, kind, at, s + 1);
      assert CountAt(t, charId, kind, s) == TotalFrom(t, charId, kind, s) - TotalFrom(t, charId, kind, s + 1);
      assert CountAt(u, charId, kind, s) == TotalFrom(u, charId, kind, s) - TotalFrom(u, charId, kind, s + 1);
    }
  }

  // ---------------------------------------------------------------- one item

  /** Slot written by `Increase`. */
  function TakerSlot(t: Table, taker: int, o: Offer): int {
    match FirstSlot(t, taker, o.GetKind())
    case Some(s) => s
    case None => NextSlot(t, taker, o.inventoryType)
  }

  lemma DecreaseRows(t: Table, giver: int, o: Offer)
    requires ValidTable(t) && Decrease(t, giver, o).Some?
    ensures var u := Decrease(t, giver, o).value;
            && ValidTable(u)
            && forall key | key != Key(giver, o.inventoryType, o.slot) ::
                 (key in u <==> key in t) && (key in t ==> u[key] == t[key])
  {
  }

  /** `u` is `t` with the offer merged into, or inserted at, the taker's slot `at`. */
  ghost predicate Written(t: Table, u: Table, taker: int, o: Offer, at: int) {
    var key := Key(taker, o.inventoryType, at);
    && SLOT_MIN <= at <= SLOT_MAX && ValidTable(u) && key in u
    && u[key] == Row(o.itemId, (if key in t then t[key].count else 0) + o.amount)
    && (key in t ==> t[key].itemId == o.itemId)
    && (key in t <==> Owns(t, taker, o.GetKind()))
    && (forall i | SLOT_MIN <= i < at :: !HoldsKind(t, taker, o.GetKind(), i))
    && (key !in t ==> at == NextSlot(t, taker, o.inventoryType))
    && forall k | k != key :: (k in u <==> k in t) && (k in t ==> u[k] == t[k])
  }

  lemma IncreaseRows(t: Table, taker: int, o: Offer)
    requires ValidTable(t) && Increase(t, taker, o).Some?
    ensures Written(t, Increase(t, taker, o).value, taker, o, TakerSlot(t, taker, o))
  {
    var k, first := o.GetKind(), FirstSlot(t, taker, o.GetKind());
    if first.Some? {
      MergeRows(t, taker, o, first.value);
    } else {
      InsertRows(t, taker, o, NextSlot(t, taker, o.inventoryType));
    }
  }

  lemma MergeRows(t: Table, taker: int, o: Offer, at: int)
    requires ValidTable(t) && o.amount > 0 && FirstSlot(t, taker, o.GetKind()) == Some(at)
    requires UpdatePlus(t, Key(taker, o.inventoryType, at), o.itemId, o.amount).Some?
    ensures Written(t, UpdatePlus(t, Key(taker, o.inventoryType, at), o.itemId, o.amount).value, taker, o, at)
  {
  }

  lemma InsertRows(t: Table, taker: int, o: Offer, at: int)
    requires ValidTable(t) && FirstSlot(t, taker, o.GetKind()).None? && NextSlot(t, taker, o.inventoryType) == at
    requires Insert(t, Key(taker, o.inventoryType, at), Row(o.itemId, o.amount)).Some?
    ensures Written(t, Insert(t, Key(taker, o.inventoryType, at), Row(o.itemId, o.amount)).value, taker, o, at)
  {
  }

  /** What the row at `key` adds to a player's total of a kind. */
  function Share(t: Table, key: Key, c: int, k: Kind): int {
    if key in t && key.charId == c && key.inventoryType == k.inventoryType && t[key].itemId == k.itemId
    then t[key].count else 0
  }

  lemma WriteTotal(t: Table, u: Table, at: Key, c: int, k: Kind)
    requires SLOT_MIN <= at.slot <= SLOT_MAX
    requires forall key | key != at :: (key in u <==> key in t) && (key in t ==> u[key] == t[key])
    ensures Total(u, c, k) == Total(t, c, k) + Share(u, at, c, k) - Share(t, at, c, k)
  {
    TotalChange(t, u, c, k, at.slot, SLOT_MIN);
  }

  lemma DecreaseTotal(t: Table, giver: int, o: Offer, c: int, k: Kind)
    requires ValidTable(t) && Decrease(t, giver, o).Some?
    ensures Total(Decrease(t, giver, o).value, c, k)
            == Total(t, c, k) - if c == giver && k == o.GetKind() then o.amount else 0
  {
    DecreaseRows(t, giver, o);
    WriteTotal(t, Decrease(t, giver, o).value, Key(giver, o.inventoryType, o.slot), c, k);
  }

  lemma IncreaseTotal(t: Table, taker: int, o: Offer, c: int, k: Kind)
    requires ValidTable(t) && Increase(t, taker, o).Some?
    ensures Total(Increase(t, taker, o).value, c, k)
            == Total(t, c, k) + if c == taker && k == o.GetKind() then o.amount else 0
  {
    IncreaseRows(t, taker, o);
    WriteTotal(t, Increase(t, taker, o).value, Key(taker, o.inventoryType, TakerSlot(t, taker, o)), c, k);
  }

  /** A decrease goes through exactly for a sane offer the row covers; it lowers that row, and takes
      it out exactly when nothing is left. */
  lemma DecreaseEffect(t: Table, giver: int, o: Offer)
    ensures var key := Key(giver, o.inventoryType, o.slot);
            && (Decrease(t, giver, o).Some? <==>
                  giver > 0 && o.itemId > 0 && o.inventoryType >= 0 && o.slot >= 0 && o.amount > 0
                  && key in t && t[key].itemId == o.itemId && o.amount <= t[key].count)
            && (Decrease(t, giver, o).Some? ==>
                  Decrease(t, giver, o).value
                  == if t[key].count == o.amount then t - {key}
                     else t[key := Row(o.itemId, t[key].count - o.amount)])
  {
  }

  /** An increase adds to the first row of the kind; without one it makes a row of its own, above all
      others of its inventory type. */
  lemma IncreaseEffect(t: Table, taker: int, o: Offer, u: Table)
    requires ValidTable(t) && Increase(t, taker, o) == Some(u)
    ensures taker > 0 && o.inventoryType >= 0 && o.itemId > 0 && o.amount > 0
    ensures exists at :: var key := Key(taker, o.inventoryType, at);
                         && SLOT_MIN <= at <= SLOT_MAX
                         && u == t[key := Row(o.itemId, (if key in t then t[key].count else 0) + o.amount)]
                         && (if HoldsKind(t, taker, o.GetKind(), at)
                             then forall i | SLOT_MIN <= i < at :: !HoldsKind(t, taker, o.GetKind(), i)
                             else forall i | SLOT_MIN <= i <= SLOT_MAX ::
                                    !HoldsKind(t, taker, o.GetKind(), i)
                                    && (Key(taker, o.inventoryType, i) in t ==> i < at))
  {
    IncreaseRows(t, taker, o);
    var at := TakerSlot(t, taker, o);
    assert u == t[Key(taker, o.inventoryType, at) := u[Key(taker, o.inventoryType, at)]];
  }

  // ---------------------------------------------------------------- no empty rows

  ghost predicate NoEmptyRows(t: Table) { forall k | k in t :: t[k].count > 0 }

  lemma HandedKeepsNoEmptyRows(t: Table, giver: int, taker: int, o: Offer)
    requires ValidTable(t) && NoEmptyRows(t) && Handed(t, giver, taker, o).Some?
    ensures ValidTable(Handed(t, giver, taker, o).value) && NoEmptyRows(Handed(t, giver, taker, o).value)
  {
    DecreaseEffect(t, giver, o);
    DecreaseRows(t, giver, o);
    IncreaseRows(Decrease(t, giver, o).value, taker, o);
  }

  /** A transfer never leaves a row with nothing in it. */
  lemma {:induction false} TransferKeepsNoEmptyRows(t: Table, giver: int, taker: int, offers: seq<Offer>)
    requires ValidTable(t) && NoEmptyRows(t) && Transfer(t, giver, taker, offers).Some?
    ensures ValidTable(Transfer(t, giver, taker, offers).value) && NoEmptyRows(Transfer(t, giver, taker, offers).value)
    decreases |offers|
  {
    if offers != [] {
      TransferUnfold(t, giver, taker, offers);
      HandedKeepsNoEmptyRows(t, giver, taker, offers[0]);
      TransferKeepsNoEmptyRows(Handed(t, giver, taker, offers[0]).value, giver, taker, offers[1..]);
    }
  }

  /** Nothing is offered out of a row that is not there. */
  lemma {:induction false} AbsentRowGivesNothing(t: Table, giver: int, taker: int, offers: seq<Offer>,
                                                     key: Key, item: int)
    requires ValidTable(t) && giver != taker && key.charId == giver && key !in t
    requires Transfer(t, giver, taker, offers).Some?
    ensures SumOf(offers, OfferKey(SlotKey(key.inventoryType, key.slot), item)) == 0
    ensures key !in Transfer(t, giver, taker, offers).value
    decreases |offers|
  {
    if offers != [] {
      TransferUnfold(t, giver, taker, offers);
      var u := Handed(t, giver, taker, offers[0]).value;
      DecreaseEffect(t, giver, offers[0]);
      DecreaseRows(t, giver, offers[0]);
      IncreaseRows(Decrease(t, giver, offers[0]).value, taker, offers[0]);
      AbsentRowGivesNothing(u, giver, taker, offers[1..], key, item);
    }
  }

  /** Every row of the giver loses exactly what was offered out of it, and is gone exactly when that
      was all of it. */
  lemma {:induction false} GiverRows(t: Table, giver: int, taker: int, offers: seq<Offer>, key: Key)
    requires ValidTable(t) && NoEmptyRows(t) && giver != taker && key.charId == giver && key in t
    requires Transfer(t, giver, taker, offers).Some?
    ensures var u := Transfer(t, giver, taker, offers).value;
            var given := SumOf(offers, OfferKey(SlotKey(key.inventoryType, key.slot), t[key].itemId));
            && 0 <= given <= t[key].count
            && (key in u <==> given < t[key].count)
            && (key in u ==> u[key] == Row(t[key].itemId, t[key].count - given))
    decreases |offers|
  {
    if offers != [] {
      TransferUnfold(t, giver, taker, offers);
      var o := offers[0];
      var v := Decrease(t, giver, o).value;
      var u := Handed(t, giver, taker, o).value;
      DecreaseEffect(t, giver, o);
      HandedKeepsNoEmptyRows(t, giver, taker, o);
      DecreaseRows(t, giver, o);
      IncreaseRows(v, taker, o);
      assert key in u <==> key in v;
      if key in u {
        GiverRows(u, giver, taker, offers[1..], key);
      } else {
        AbsentRowGivesNothing(u, giver, taker, offers[1..], key, t[key].itemId);
      }
    }
  }

  // ---------------------------------------------------------------- one direction

  function OfferedKind(offers: seq<Offer>, kind: Kind): int {
    if offers == [] then 0
    else OfferedKind(offers[1..], kind) + if offers[0].GetKind() == kind then offers[0].amount else 0
  }

  /** The table after the first item has changed hands. */
  function Handed(t: Table, giver: int, taker: int, o: Offer): Option<Table> {
    match Decrease(t, giver, o)
    case None => None
    case Some(u) => Increase(u, taker, o)
  }

  lemma TransferUnfold(t: Table, giver: int, taker: int, offers: seq<Offer>)
    requires offers != []
    ensures Transfer(t, giver, taker, offers)
            == match Handed(t, giver, taker, offers[0])
               case None => None
               case Some(u) => Transfer(u, giver, taker, offers[1..])
  {
  }

  /** A transfer that goes through moves exactly the offered amounts and nothing of anyone else. */
  lemma {:induction false} TransferTotal(t: Table, giver: int, taker: int, offers: seq<Offer>, c: int, k: Kind)
    requires ValidTable(t) && giver != taker && Transfer(t, giver, taker, offers).Some?
    ensures ValidTable(Transfer(t, giver, taker, offers).value)
    ensures Total(Transfer(t, giver, taker, offers).value, c, k)
            == Total(t, c, k) + if c == taker then OfferedKind(offers, k)
                                else if c == giver then -OfferedKind(offers, k) else 0
    decreases |offers|
  {
    if offers != [] {
      TransferUnfold(t, giver, taker, offers);
      HandedTotal(t, giver, taker, offers[0], c, k);
      TransferTotal(Handed(t, giver, taker, offers[0]).value, giver, taker, offers[1..], c, k);
    }
  }

  lemma HandedTotal(t: Table, giver: int, taker: int, o: Offer, c: int, k: Kind)
    requires ValidTable(t) && giver != taker && Handed(t, giver, taker, o).Some?
    ensures ValidTable(Handed(t, giver, taker, o).value)
    ensures Total(Handed(t, giver, taker, o).value, c, k)
            == Total(t, c, k) + if k != o.GetKind() then 0 else if c == taker then o.amount
                                else if c == giver then -o.amount else 0
  {
    var v := Decrease(t, giver, o).value;
    DecreaseRows(t, giver, o);
    DecreaseTotal(t, giver, o, c, k);
    IncreaseRows(v, taker, o);
    IncreaseTotal(v, taker, o, c, k);
  }

  // ---------------------------------------------------------------- the giver's side

  /** The giver's rows cover the sum offered out of every slot. */
  ghost predicate Covered(t: Table, giver: int, offers: seq<Offer>) {
    forall o | o in offers :: RowHolds(t, Key(giver, o.inventoryType, o.slot), o.itemId, SumOf(offers, KeyOf(o)))
  }

  ghost predicate Sane(offers: seq<Offer>) {
    forall o | o in offers :: WellFormedOffer(o) && 0 <= o.inventoryType <= TYPE_MAX && o.amount <= INT_MAX
  }

  lemma SumOfAtLeast(offers: seq<Offer>, i: nat)
    requires i < |offers| && forall o | o in offers :: o.amount > 0
    ensures SumOf(offers, KeyOf(offers[i])) >= offers[i].amount
  {
    var k := KeyOf(offers[i]);
    assert offers[..i + 1] == offers[..i] + [offers[i]];
    SumOfAppend(offers[..i], offers[i], k);
    OfferedAtBound(offers, i, k.key, k.itemId);
    OfferedAtBound(offers, i + 1, k.key, k.itemId);
  }

  /** The first decrease goes through and leaves enough for the rest. */
  lemma DecreaseCovered(t: Table, giver: int, offers: seq<Offer>)
    requires offers != [] && giver > 0 && Sane(offers) && Covered(t, giver, offers)
    ensures Decrease(t, giver, offers[0]).Some?
    ensures Covered(Decrease(t, giver, offers[0]).value, giver, offers[1..])
  {
    var o, rest := offers[0], offers[1..];
    SumOfAtLeast(offers, 0);
    var u := Decrease(t, giver, o).value;
    forall p | p in rest
      ensures RowHolds(u, Key(giver, p.inventoryType, p.slot), p.itemId, SumOf(rest, KeyOf(p)))
    {
      assert p in offers;
      var i :| 0 <= i < |rest| && rest[i] == p;
      SumOfAtLeast(rest, i);
      assert SumOf(offers, KeyOf(p)) == SumOf(rest, KeyOf(p)) + if KeyOf(o) == KeyOf(p) then o.amount else 0;
    }
  }

  /** Receiving items never spoils what one's own offers need. */
  lemma IncreaseCovered(t: Table, taker: int, o: Offer, c: int, offers: seq<Offer>)
    requires ValidTable(t) && Increase(t, taker, o).Some? && Covered(t, c, offers)
    ensures Covered(Increase(t, taker, o).value, c, offers)
  {
    IncreaseRows(t, taker, o);
  }

  // ---------------------------------------------------------------- the taker's side

  /** Count of the row that further items of a kind are merged into. */
  function TargetCount(t: Table, c: int, k: Kind): int {
    match FirstSlot(t, c, k)
    case Some(s) => t[Key(c, k.inventoryType, s)].count
    case None => 0
  }

  ghost function OwnedKinds(t: Table, c: int): iset<Kind> { iset k | Owns(t, c, k) }

  /** How many new rows of one inventory type the offers need: one for each kind not owned yet. */
  ghost function FreshRows(owned: iset<Kind>, offers: seq<Offer>, ty: int): nat {
    if offers == [] then 0
    else
      var k := offers[0].GetKind();
      FreshRows(owned + iset{k}, offers[1..], ty) + if k.inventoryType == ty && k !in owned then 1 else 0
  }

  ghost predicate CountsFit(t: Table, c: int, offers: seq<Offer>) {
    forall k :: TargetCount(t, c, k) + OfferedKind(offers, k) <= INT_MAX
  }

  ghost predicate SlotsFit(t: Table, c: int, offers: seq<Offer>) {
    forall ty :: NextSlot(t, c, ty) + FreshRows(OwnedKinds(t, c), offers, ty) <= SLOT_MAX + 1
  }

  /** The columns have room: no merged count overflows INT and no new slot overflows SMALLINT. */
  ghost predicate Fits(t: Table, c: int, offers: seq<Offer>) {
    CountsFit(t, c, offers) && SlotsFit(t, c, offers)
  }

  lemma {:induction false} FirstSlotIs(t: Table, c: int, k: Kind, s: int, at: int)
    requires s <= at <= SLOT_MAX && HoldsKind(t, c, k, at)
    requires forall i | s <= i < at :: !HoldsKind(t, c, k, i)
    ensures FirstSlotFrom(t, c, k, s) == Some(at)
    decreases at - s
  {
    if s < at {
      FirstSlotIs(t, c, k, s + 1, at);
    }
  }

  lemma {:induction false} SameHolders(t: Table, u: Table, c: int, k: Kind, s: int)
    requires forall i :: HoldsKind(t, c, k, i) <==> HoldsKind(u, c, k, i)
    ensures FirstSlotFrom(t, c, k, s) == FirstSlotFrom(u, c, k, s)
    decreases SLOT_MAX + 1 - s
  {
    if s <= SLOT_MAX {
      SameHolders(t, u, c, k, s + 1);
    }
  }

  /** After an increase only the given kind's merge row has changed. */
  lemma WrittenTarget(t: Table, u: Table, taker: int, o: Offer, at: int, k: Kind)
    requires Written(t, u, taker, o, at)
    ensures TargetCount(u, taker, k) == TargetCount(t, taker, k) + (if k == o.GetKind() then o.amount else 0)
  {
    WrittenFirstSlot(t, u, taker, o, at, k);
    if k == o.GetKind() && Owns(t, taker, k) { FirstSlotIs(t, taker, k, SLOT_MIN, at); }
  }

  lemma WrittenFirstSlot(t: Table, u: Table, taker: int, o: Offer, at: int, k: Kind)
    requires Written(t, u, taker, o, at)
    ensures FirstSlot(u, taker, k) == if k == o.GetKind() then Some(at) else FirstSlot(t, taker, k)
  {
    if k == o.GetKind() {
      assert forall i | i != at :: HoldsKind(t, taker, k, i) <==> HoldsKind(u, taker, k, i);
      FirstSlotIs(u, taker, k, SLOT_MIN, at);
    } else {
      SameHolders(t, u, taker, k, SLOT_MIN);
    }
  }

  lemma WrittenNextSlot(t: Table, u: Table, taker: int, o: Offer, at: int, ty: int)
    requires Written(t, u, taker, o, at)
    ensures NextSlot(u, taker, ty)
            == NextSlot(t, taker, ty) + if ty == o.inventoryType && !Owns(t, taker, o.GetKind()) then 1 else 0
  {
    var key := Key(taker, o.inventoryType, at);
    if ty != o.inventoryType || key in t {
      SameKeysNextSlot(t, u, taker, ty, SLOT_MAX);
    }
  }

  lemma {:induction false} SameKeysNextSlot(t: Table, u: Table, c: int, ty: int, s: int)
    requires SLOT_MIN - 1 <= s <= SLOT_MAX
    requires forall i :: Key(c, ty, i) in t <==> Key(c, ty, i) in u
    ensures NextSlotUpTo(t, c, ty, s) == NextSlotUpTo(u, c, ty, s)
    decreases s - SLOT_MIN + 1
  {
    if s >= SLOT_MIN {
      SameKeysNextSlot(t, u, c, ty, s - 1);
    }
  }

  lemma {:induction false} OfferedKindNonNegative(offers: seq<Offer>, k: Kind)
    requires Sane(offers)
    ensures OfferedKind(offers, k) >= 0
  {
    if offers != [] {
      OfferedKindNonNegative(offers[1..], k);
    }
  }

  lemma FitsAllows(t: Table, taker: int, offers: seq<Offer>)
    requires taker > 0 && offers != [] && Sane(offers) && Fits(t, taker, offers)
    ensures Increase(t, taker, offers[0]).Some?
  {
    var o := offers[0];
    OfferedKindNonNegative(offers[1..], o.GetKind());
    assert TargetCount(t, taker, o.GetKind()) + OfferedKind(offers, o.GetKind()) <= INT_MAX;
    assert NextSlot(t, taker, o.inventoryType) + FreshRows(OwnedKinds(t, taker), offers, o.inventoryType)
           <= SLOT_MAX + 1;
  }

  /** One row operation fits exactly when the columns have room for it and for the rest. */
  lemma IncreaseFits(t: Table, taker: int, offers: seq<Offer>)
    requires ValidTable(t) && taker > 0 && offers != [] && Sane(offers)
    ensures Fits(t, taker, offers)
            <==> Increase(t, taker, offers[0]).Some? && Fits(Increase(t, taker, offers[0]).value, taker, offers[1..])
  {
    var o := offers[0];
    var inc := Increase(t, taker, o);
    if Fits(t, taker, offers) {
      FitsAllows(t, taker, offers);
    }
    if inc.Some? {
      IncreaseRows(t, taker, o);
      CountsFitAfterWrite(t, inc.value, taker, offers, TakerSlot(t, taker, o));
      SlotsFitAfterWrite(t, inc.value, taker, offers, TakerSlot(t, taker, o));
    }
  }

  lemma CountsFitAfterWrite(t: Table, u: Table, taker: int, offers: seq<Offer>, at: int)
    requires offers != [] && Written(t, u, taker, offers[0], at)
    ensures CountsFit(t, taker, offers) <==> CountsFit(u, taker, offers[1..])
  {
    forall k
      ensures TargetCount(t, taker, k) + OfferedKind(offers, k)
              == TargetCount(u, taker, k) + OfferedKind(offers[1..], k)
    {
      WrittenTarget(t, u, taker, offers[0], at, k);
    }
  }

  lemma SlotsFitAfterWrite(t: Table, u: Table, taker: int, offers: seq<Offer>, at: int)
    requires offers != [] && Written(t, u, taker, offers[0], at)
    ensures SlotsFit(t, taker, offers) <==> SlotsFit(u, taker, offers[1..])
  {
    var o, rest := offers[0], offers[1..];
    WrittenOwned(t, u, taker, o, at);
    var owned, k := OwnedKinds(t, taker), o.GetKind();
    forall ty
      ensures NextSlot(t, taker, ty) + FreshRows(owned, offers, ty)
              == NextSlot(u, taker, ty) + FreshRows(OwnedKinds(u, taker), rest, ty)
    {
      WrittenNextSlot(t, u, taker, o, at, ty);
      assert k in owned <==> Owns(t, taker, k);
    }
  }

  lemma WrittenOwns(t: Table, u: Table, taker: int, o: Offer, at: int, k: Kind)
    requires Written(t, u, taker, o, at)
    ensures Owns(u, taker, k) <==> Owns(t, taker, k) || k == o.GetKind()
  {
    WrittenFirstSlot(t, u, taker, o, at, k);
  }

  lemma WrittenOwned(t: Table, u: Table, taker: int, o: Offer, at: int)
    requires Written(t, u, taker, o, at)
    ensures OwnedKinds(u, taker) == OwnedKinds(t, taker) + iset{o.GetKind()}
  {
    forall k ensures Owns(u, taker, k) <==> Owns(t, taker, k) || k == o.GetKind() {
      WrittenOwns(t, u, taker, o, at, k);
    }
  }

  lemma SameRowsFit(t: Table, u: Table, c: int, offers: seq<Offer>)
    requires SameRows(t, u, c)
    ensures Fits(t, c, offers) <==> Fits(u, c, offers)
  {
    forall k ensures FirstSlot(t, c, k) == FirstSlot(u, c, k) { SameFirstSlot(t, u, c, k, SLOT_MIN); }
    forall ty
      ensures NextSlot(t, c, ty) == NextSlot(u, c, ty)
    {
      SameNextSlot(t, u, c, ty, SLOT_MAX);
    }
    assert OwnedKinds(t, c) == OwnedKinds(u, c);
    assert forall k :: TargetCount(t, c, k) == TargetCount(u, c, k);
  }

  // ---------------------------------------------------------------- one direction goes through

  lemma {:induction false} TransferIff(t: Table, giver: int, taker: int, offers: seq<Offer>)
    requires ValidTable(t) && giver != taker && giver > 0 && taker > 0
    requires Sane(offers) && Covered(t, giver, offers)
    ensures Transfer(t, giver, taker, offers).Some? <==> Fits(t, taker, offers)
    decreases |offers|
  {
    if offers != [] {
      TransferUnfold(t, giver, taker, offers);
      var o, rest := offers[0], offers[1..];
      DecreaseCovered(t, giver, offers);
      DecreaseRows(t, giver, o);
      var u := Decrease(t, giver, o).value;
      SameRowsFit(t, u, taker, offers);
      IncreaseFits(u, taker, offers);
      if Increase(u, taker, o).Some? {
        IncreaseCovered(u, taker, o, giver, rest);
        IncreaseRows(u, taker, o);
        TransferIff(Increase(u, taker, o).value, giver, taker, rest);
      }
    }
  }
}
