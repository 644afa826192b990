/** A player's inventories, one per item type: adding works on a copy that is swapped in only when
    everything fits. */
module InventoryManager {
  import opened Common
  import Inv = Inventory

  /** `inventoryType` is what the item's type converts to, -1 when it is none of the known ones. */
  datatype ItemData = ItemData(stackable: bool, maxStack: int, inventoryType: int, sellPrice: int)

  type Catalog = map<int, ItemData>

  const INVALID_TYPE: int := -1

  datatype Bag = Bag(slots: Inv.Slots, inventoryType: int, maxSlot: int, currentSlots: int)

  type Bags = map<int, Bag>

  function DataFor(catalog: Catalog, itemId: int, count: int): Inv.AddData
    requires itemId in catalog
  {
    Inv.AddData(itemId, count, catalog[itemId].stackable, catalog[itemId].maxStack)
  }

  /** Everything that lets an item be added at all, room aside. */
  predicate Addable(catalog: Catalog, bags: Bags, itemId: int) {
    itemId > 0 && itemId in catalog && (catalog[itemId].stackable ==> catalog[itemId].maxStack > 0)
    && catalog[itemId].inventoryType != INVALID_TYPE && catalog[itemId].inventoryType in bags
  }

  /** An add succeeds exactly when the item is addable and the count fits what is free. */
  predicate CanAdd(catalog: Catalog, bags: Bags, itemId: int, count: int) {
    Addable(catalog, bags, itemId)
    && var bag := bags[catalog[itemId].inventoryType];
       0 < count <= Inv.Capacity(bag.slots, 0, bag.maxSlot, DataFor(catalog, itemId, count))
  }

  function Added(catalog: Catalog, bags: Bags, itemId: int, count: int): Inv.Progress
    requires Addable(catalog, bags, itemId)
  {
    var bag := bags[catalog[itemId].inventoryType];
    Inv.Adding(bag.slots, bag.maxSlot, DataFor(catalog, itemId, count))
  }

  function AfterAdd(catalog: Catalog, bags: Bags, itemId: int, count: int): Bags
    requires Addable(catalog, bags, itemId)
  {
    var t := catalog[itemId].inventoryType;
    bags[t := bags[t].(slots := Added(catalog, bags, itemId, count).slots)]
  }

  function Snapshot(bags: Bags, t: int, pos: int): Option<Inv.Slot> {
    if t in bags && pos in bags[t].slots && bags[t].slots[pos].enabled
       && bags[t].slots[pos].itemId > 0 && bags[t].slots[pos].count > 0
    then Some(bags[t].slots[pos]) else None
  }

  predicate HasItem(bags: Bags, t: int, pos: int, itemId: int, count: int) {
    t in bags && Inv.Has(bags[t].slots, pos, itemId, count)
  }

  predicate CanRemove(bags: Bags, t: int, pos: int, itemId: int, count: int) {
    count > 0 && HasItem(bags, t, pos, itemId, count)
  }

  function AfterRemove(bags: Bags, t: int, pos: int, count: int): Bags
    requires t in bags && pos in bags[t].slots
  {
    bags[t := bags[t].(slots := Inv.Removed(bags[t].slots, pos, count))]
  }

  /** How many of an item the player holds in the inventory its type belongs to. */
  ghost function ItemTotal(catalog: Catalog, bags: Bags, item: int): int {
    if item in catalog && catalog[item].inventoryType in bags
    then Inv.Total(bags[catalog[item].inventoryType].slots, item) else 0
  }

  /** An add raises the item's total by the count, and no other; a slot that changes grows within
      its stack, and the updates name exactly the slots that changed. */
  lemma AddEffect(catalog: Catalog, bags: Bags, itemId: int, count: int, item: int)
    requires CanAdd(catalog, bags, itemId, count) && item != 0
    ensures var after := AfterAdd(catalog, bags, itemId, count); var t := catalog[itemId].inventoryType;
            && ItemTotal(catalog, after, item) == ItemTotal(catalog, bags, item) + (if item == itemId then count else 0)
            && Inv.Filled(bags[t].slots, after[t].slots, 0, bags[t].maxSlot, DataFor(catalog, itemId, count))
            && Inv.Reports(bags[t].slots, after[t].slots, Added(catalog, bags, itemId, count).results)
            && after.Keys == bags.Keys && after[t] == bags[t].(slots := after[t].slots)
            && forall ty | ty in bags && ty != t :: after[ty] == bags[ty]
  {
    var t := catalog[itemId].inventoryType;
    var d := DataFor(catalog, itemId, count);
    Inv.AddSucceedsIff(bags[t].slots, bags[t].maxSlot, d);
    Inv.AddFills(bags[t].slots, bags[t].maxSlot, d);
    Inv.AddTotal(bags[t].slots, bags[t].maxSlot, d, item);
  }

  lemma RemoveEffect(catalog: Catalog, bags: Bags, t: int, pos: int, itemId: int, count: int, item: int)
    requires CanRemove(bags, t, pos, itemId, count) && item != 0
    requires itemId in catalog && catalog[itemId].inventoryType == t
    ensures ItemTotal(catalog, AfterRemove(bags, t, pos, count), item)
            == ItemTotal(catalog, bags, item) - if item == itemId then count else 0
  {
    Inv.RemoveTotal(bags[t].slots, pos, count, item);
  }

  class InventoryManager {
    var inventories: map<int, Inv.Inventory>
    const catalog: Catalog

    /** No two types share an inventory object. */
    ghost predicate Valid()
      reads this
    {
      forall a, b | a in inventories && b in inventories && inventories[a] == inventories[b] :: a == b
    }

    ghost function View(): Bags
      reads this, inventories.Values
    {
      map t | t in inventories ::
        Bag(inventories[t].slots, inventories[t].inventoryType, inventories[t].maxSlot, inventories[t].currentSlots)
    }

    constructor (catalog: Catalog)
      ensures Valid() && View() == map[] && this.catalog == catalog
    {
      inventories, this.catalog := map[], catalog;
    }

    /** A failure changes neither the inventories nor the caller's list. */
    method AddItem(itemId: int, count: int, updates: seq<Inv.AddResult>) returns (ok: bool, all: seq<Inv.AddResult>)
      requires Valid()
      modifies inventories.Values
      ensures Valid()
      ensures ok <==> CanAdd(catalog, old(View()), itemId, count)
      ensures View() == if ok then AfterAdd(catalog, old(View()), itemId, count) else old(View())
      ensures all == if ok then updates + Added(catalog, old(View()), itemId, count).results else updates
    {
      if itemId <= 0 || count <= 0 || itemId !in catalog { return false, updates; }
      var item := catalog[itemId];
      if item.stackable && item.maxStack <= 0 { return false, updates; }
      var t := item.inventoryType;
      if t == INVALID_TYPE || t !in inventories { return false, updates; }
      var d := Inv.AddData(itemId, count, item.stackable, item.maxStack);
      var original := inventories[t];
      Inv.AddSucceedsIff(original.slots, original.maxSlot, d);
      var candidate := new Inv.Inventory.CopyOf(original);
      var results;
      ok, results := candidate.AddItem(d);
      if !ok { return false, updates; }
      all := updates + results;
      original.Swap(candidate);
      assert forall k | k in inventories && k != t :: inventories[k] != original;
      assert View() == AfterAdd(catalog, old(View()), itemId, count);
    }

    method GetSlotSnapshot(t: int, pos: int) returns (slot: Option<Inv.Slot>)
      ensures slot == Snapshot(View(), t, pos)
    {
      if t !in inventories { return None; }
      var inventory := inventories[t];
      if pos !in inventory.slots { return None; }
      var s := inventory.slots[pos];
      if !s.enabled || s.itemId <= 0 || s.count <= 0 { return None; }
      return Some(s);
    }

    method HasItemBySlot(t: int, pos: int, itemId: int, count: int) returns (ok: bool)
      ensures ok <==> HasItem(View(), t, pos, itemId, count)
    {
      if t !in inventories { return false; }
      ok := inventories[t].HasItemBySlot(pos, itemId, count);
    }

    method RemoveItemBySlot(t: int, pos: int, itemId: int, count: int) returns (ok: bool)
      requires Valid()
      modifies inventories.Values
      ensures Valid()
      ensures ok <==> CanRemove(old(View()), t, pos, itemId, count)
      ensures View() == if ok then AfterRemove(old(View()), t, pos, count) else old(View())
    {
      if count <= 0 { return false; }
      if t !in inventories { return false; }
      ok := inventories[t].RemoveItemBySlot(pos, itemId, count);
      assert forall k | k in inventories && k != t :: inventories[k] != inventories[t];
      assert ok ==> View() == AfterRemove(old(View()), t, pos, count);
      assert !ok ==> View() == old(View());
    }
  }
}
