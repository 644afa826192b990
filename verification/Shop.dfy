/** Buying and selling at a shop: gold in 64 bits, and rollback guards that restore it. */
module Shop {
  import opened Common
  import opened InventoryManager
  import Inv = Inventory

  const INT64_MAX: int := 0x7FFF_FFFF_FFFF_FFFF

  type Int64 = n: int | -INT64_MAX - 1 <= n <= INT64_MAX

  datatype Product = Product(productId: int, itemId: int, price: int, maxPerPurchase: int)

  datatype ShopDefinition = ShopDefinition(shopId: int, products: seq<Product>, allowSell: bool)

  /** What a purchase or a sale changes. */
  datatype Holdings = Holdings(gold: Int64, bags: Bags)

  /** The guard in front of a product of price and count admits exactly the products that fit. */
  lemma DivisionGuard(price: int, count: int)
    requires price > 0 && count > 0
    ensures price <= INT64_MAX / count <==> price * count <= INT64_MAX
  {
    var q := INT64_MAX / count;
    assert q * count <= INT64_MAX < (q + 1) * count;
    if price <= q { Scaled(price, q, count); } else { Scaled(q + 1, price, count); }
  }

  lemma Scaled(a: int, b: int, count: int)
    requires a <= b && count > 0
    ensures a * count <= b * count
  {
  }

  /** The first product with the id. */
  function FindProduct(products: seq<Product>, id: int): (found: Option<Product>)
    ensures found.Some? ==> found.value in products && found.value.productId == id
    ensures found.None? <==> forall p | p in products :: p.productId != id
  {
    if products == [] then None
    else if products[0].productId == id then Some(products[0])
    else FindProduct(products[1..], id)
  }

  /** The search loop of a purchase. */
  method SearchProduct(products: seq<Product>, id: int) returns (found: Option<Product>)
    ensures found == FindProduct(products, id)
  {
    for i := 0 to |products|
      invariant FindProduct(products, id) == FindProduct(products[i..], id)
    {
      assert products[i..][1..] == products[i + 1..];
      if products[i].productId == id { return Some(products[i]); }
    }
    return None;
  }

  /** A purchase goes through exactly in these cases. `shop` is the one the NPC in reach runs. */
  predicate CanBuy(catalog: Catalog, h: Holdings, shop: Option<ShopDefinition>, productId: int, count: int) {
    productId > 0 && count > 0 && shop.Some?
    && var p := FindProduct(shop.value.products, productId);
       p.Some? && count <= p.value.maxPerPurchase && p.value.price > 0 && p.value.price * count <= INT64_MAX
       && p.value.price * count <= h.gold && CanAdd(catalog, h.bags, p.value.itemId, count)
  }

  predicate CanSell(catalog: Catalog, h: Holdings, shop: Option<ShopDefinition>, t: int, pos: int, count: int) {
    pos >= 0 && count > 0 && shop.Some? && shop.value.allowSell
    && var slot := Snapshot(h.bags, t, pos);
       slot.Some? && count <= slot.value.count && slot.value.itemId in catalog
       && var item := catalog[slot.value.itemId];
          item.inventoryType == t && item.sellPrice > 0 && h.gold + item.sellPrice * count <= INT64_MAX
          && item.sellPrice * count <= INT64_MAX
  }

  datatype Receipt = Bought(itemId: int, count: int, total: int, gold: int, updates: seq<Inv.AddResult>)
                   | Sold(itemId: int, count: int, total: int, gold: int, slotItem: int, slotCount: int)

  function BuyReceipt(catalog: Catalog, h: Holdings, shop: Option<ShopDefinition>, productId: int, count: int): Receipt
    requires CanBuy(catalog, h, shop, productId, count)
  {
    var p := FindProduct(shop.value.products, productId).value;
    Bought(p.itemId, count, p.price * count, h.gold - p.price * count, Added(catalog, h.bags, p.itemId, count).results)
  }

  function SellReceipt(catalog: Catalog, h: Holdings, shop: Option<ShopDefinition>, t: int, pos: int, count: int)
    : Receipt
    requires CanSell(catalog, h, shop, t, pos, count)
  {
    var slot := Snapshot(h.bags, t, pos).value;
    var total := catalog[slot.itemId].sellPrice * count;
    Sold(slot.itemId, count, total, h.gold + total, if slot.count > count then slot.itemId else 0, slot.count - count)
  }

  function AfterBuy(catalog: Catalog, h: Holdings, shop: Option<ShopDefinition>, productId: int, count: int): Holdings
    requires CanBuy(catalog, h, shop, productId, count)
  {
    var p := FindProduct(shop.value.products, productId).value;
    var total := p.price * count;
    TotalPositive(p.price, count);
    Holdings(h.gold - total, AfterAdd(catalog, h.bags, p.itemId, count))
  }

  lemma TotalPositive(price: int, count: int)
    requires price > 0 && count > 0
    ensures price * count > 0
  {
  }

  function AfterSell(catalog: Catalog, h: Holdings, shop: Option<ShopDefinition>, t: int, pos: int, count: int)
    : Holdings
    requires CanSell(catalog, h, shop, t, pos, count)
  {
    var slot := Snapshot(h.bags, t, pos).value;
    TotalPositive(catalog[slot.itemId].sellPrice, count);
    Holdings(h.gold + catalog[slot.itemId].sellPrice * count, AfterRemove(h.bags, t, pos, count))
  }

  // ---------------------------------------------------------------- the player and the service

  class Player {
    var gold: Int64
    const inventory: InventoryManager

    ghost predicate Valid()
      reads this, inventory
    {
      inventory.Valid()
    }

    ghost function View(): Holdings
      reads this, inventory, inventory.inventories.Values
    {
      Holdings(gold, inventory.View())
    }

    constructor (gold: Int64, inventory: InventoryManager)
      requires inventory.Valid()
      ensures Valid() && this.inventory == inventory && View() == Holdings(gold, inventory.View())
    {
      this.gold, this.inventory := gold, inventory;
    }

    /** Gold that would not fit is refused. */
    method TryAddGold(amount: Int64) returns (ok: bool)
      modifies this`gold
      ensures ok <==> amount > 0 && old(gold) + amount <= INT64_MAX
      ensures gold == if ok then old(gold) + amount else old(gold)
    {
      if amount <= 0 { return false; }
      if amount > INT64_MAX - gold { return false; }
      gold := gold + amount;
      return true;
    }

    method TrySpendGold(amount: Int64) returns (ok: bool)
      modifies this`gold
      ensures ok <==> amount > 0 && amount <= old(gold)
      ensures gold == if ok then old(gold) - amount else old(gold)
    {
      if amount <= 0 { return false; }
      if gold < amount { return false; }
      gold := gold - amount;
      return true;
    }

    /** The refund guard runs when the add fails; a failed purchase leaves everything as it was. */
    method Buy(shop: Option<ShopDefinition>, productId: int, count: int) returns (receipt: Option<Receipt>)
      requires Valid()
      modifies this`gold, inventory.inventories.Values
      ensures Valid()
      ensures receipt.Some? <==> CanBuy(inventory.catalog, old(View()), shop, productId, count)
      ensures receipt.Some? ==> View() == AfterBuy(inventory.catalog, old(View()), shop, productId, count)
                                && receipt.value == BuyReceipt(inventory.catalog, old(View()), shop, productId, count)
      ensures receipt.None? ==> View() == old(View())
    {
      if productId <= 0 || count <= 0 || shop.None? { return None; }
      var found := SearchProduct(shop.value.products, productId);
      if found.None? { return None; }
      var product := found.value;
      if count > product.maxPerPurchase { return None; }
      if product.price <= 0 || product.price > INT64_MAX / count {
        if product.price > 0 { DivisionGuard(product.price, count); }
        return None;
      }
      DivisionGuard(product.price, count);
      TotalPositive(product.price, count);
      var total := product.price * count;
      var spent := TrySpendGold(total);
      if !spent { return None; }
      var left := gold;
      assert inventory.View() == old(inventory.View());
      var added, updates := inventory.AddItem(product.itemId, count, []);
      if !added {
        var refunded := TryAddGold(total);
        assert refunded;
        return None;
      }
      assert [] + updates == updates;
      return Some(Bought(product.itemId, count, total, left, updates));
    }

    /** Once the gold is credited the removal cannot fail. */
    method Sell(shop: Option<ShopDefinition>, t: int, pos: int, count: int) returns (receipt: Option<Receipt>)
      requires Valid()
      modifies this`gold, inventory.inventories.Values
      ensures Valid()
      ensures receipt.Some? <==> CanSell(inventory.catalog, old(View()), shop, t, pos, count)
      ensures receipt.Some? ==> View() == AfterSell(inventory.catalog, old(View()), shop, t, pos, count)
                                && receipt.value == SellReceipt(inventory.catalog, old(View()), shop, t, pos, count)
      ensures receipt.None? ==> View() == old(View())
    {
      if pos < 0 || count <= 0 { return None; }
      if shop.None? || !shop.value.allowSell { return None; }
      var snapshot := inventory.GetSlotSnapshot(t, pos);
      if snapshot.None? { return None; }
      var slot := snapshot.value;
      if count > slot.count { return None; }
      if slot.itemId !in inventory.catalog || inventory.catalog[slot.itemId].inventoryType != t { return None; }
      var unitPrice := inventory.catalog[slot.itemId].sellPrice;
      if unitPrice <= 0 { return None; }
      DivisionGuard(unitPrice, count);
      if unitPrice > INT64_MAX / count { return None; }
      TotalPositive(unitPrice, count);
      var total := unitPrice * count;
      var credited := TryAddGold(total);
      if !credited { return None; }
      var now := gold;
      assert inventory.View() == old(inventory.View());
      var removed := inventory.RemoveItemBySlot(t, pos, slot.itemId, count);
      assert removed;
      var left := slot.count - count;
      return Some(Sold(slot.itemId, count, total, now, if left > 0 then slot.itemId else 0, left));
    }
  }

  // ---------------------------------------------------------------- the ledger of a run

  datatype Request = Buying(shop: Option<ShopDefinition>, productId: int, count: int)
                   | Selling(shop: Option<ShopDefinition>, inventoryType: int, slotPos: int, count: int)

  function Serve(catalog: Catalog, h: Holdings, r: Request): Holdings {
    match r
    case Buying(shop, id, n) => if CanBuy(catalog, h, shop, id, n) then AfterBuy(catalog, h, shop, id, n) else h
    case Selling(shop, t, pos, n) =>
      if CanSell(catalog, h, shop, t, pos, n) then AfterSell(catalog, h, shop, t, pos, n) else h
  }

  function Issued(catalog: Catalog, h: Holdings, r: Request): seq<Receipt> {
    match r
    case Buying(shop, id, n) => if CanBuy(catalog, h, shop, id, n) then [BuyReceipt(catalog, h, shop, id, n)] else []
    case Selling(shop, t, pos, n) =>
      if CanSell(catalog, h, shop, t, pos, n) then [SellReceipt(catalog, h, shop, t, pos, n)] else []
  }

  function ServeAll(catalog: Catalog, h: Holdings, rs: seq<Request>): Holdings
    decreases |rs|
  {
    if rs == [] then h else ServeAll(catalog, Serve(catalog, h, rs[0]), rs[1..])
  }

  function Ledger(catalog: Catalog, h: Holdings, rs: seq<Request>): seq<Receipt>
    decreases |rs|
  {
    if rs == [] then [] else Issued(catalog, h, rs[0]) + Ledger(catalog, Serve(catalog, h, rs[0]), rs[1..])
  }

  /** Gold paid out less gold paid in, over a list of receipts. */
  function Balance(receipts: seq<Receipt>): int {
    if receipts == [] then 0
    else (if receipts[0].Bought? then -receipts[0].total else receipts[0].total) + Balance(receipts[1..])
  }

  function ItemBalance(receipts: seq<Receipt>, item: int): int {
    if receipts == [] then 0
    else (if receipts[0].itemId != item then 0
          else if receipts[0].Bought? then receipts[0].count
          else -receipts[0].count)
         + ItemBalance(receipts[1..], item)
  }

  /** What an accepted purchase says and does: the price times the count is paid and on the receipt,
      and that count of the product's item arrives. */
  lemma BuyEffect(catalog: Catalog, h: Holdings, shop: ShopDefinition, id: int, n: int)
    requires CanBuy(catalog, h, Some(shop), id, n)
    ensures exists p :: p in shop.products && p.productId == id && BoughtAs(catalog, h, p, n,
                          AfterBuy(catalog, h, Some(shop), id, n), BuyReceipt(catalog, h, Some(shop), id, n))
  {
    var p := FindProduct(shop.products, id).value;
    AddEffect(catalog, h.bags, p.itemId, n, p.itemId);
    TotalPositive(p.price, n);
    var u, receipt := AfterBuy(catalog, h, Some(shop), id, n), BuyReceipt(catalog, h, Some(shop), id, n);
    assert BoughtAs(catalog, h, p, n, u, receipt);
  }

  ghost predicate BoughtAs(catalog: Catalog, h: Holdings, p: Product, n: int, u: Holdings, receipt: Receipt) {
    && receipt.Bought? && receipt.itemId == p.itemId && receipt.count == n && receipt.total == p.price * n
    && receipt.gold == u.gold && u.gold == h.gold - p.price * n && 0 < p.price * n <= h.gold
    && ItemTotal(catalog, u.bags, p.itemId) == ItemTotal(catalog, h.bags, p.itemId) + n
  }

  /** What an accepted sale says and does: exactly the slot named loses the count, the item's price
      times the count is paid and on the receipt, and nothing else changes. */
  lemma SellEffect(catalog: Catalog, h: Holdings, shop: Option<ShopDefinition>, t: int, pos: int, n: int)
    requires CanSell(catalog, h, shop, t, pos, n)
    ensures t in h.bags && pos in h.bags[t].slots
    ensures var slot := h.bags[t].slots[pos]; var u := AfterSell(catalog, h, shop, t, pos, n);
            && 0 < n <= slot.count && slot.itemId in catalog
            && u.gold == h.gold + catalog[slot.itemId].sellPrice * n
            && u.bags == h.bags[t := h.bags[t].(slots := h.bags[t].slots[pos :=
                           slot.(count := slot.count - n, itemId := if slot.count == n then 0 else slot.itemId)])]
            && SellReceipt(catalog, h, shop, t, pos, n)
               == Sold(slot.itemId, n, catalog[slot.itemId].sellPrice * n, u.gold,
                       if slot.count == n then 0 else slot.itemId, slot.count - n)
  {
    Inv.RemoveEffect(h.bags[t].slots, pos, n);
  }

  lemma OneRequest(catalog: Catalog, h: Holdings, r: Request, item: int)
    requires h.gold >= 0 && item != 0
    ensures Serve(catalog, h, r).gold == h.gold + Balance(Issued(catalog, h, r)) && Serve(catalog, h, r).gold >= 0
    ensures ItemTotal(catalog, Serve(catalog, h, r).bags, item)
            == ItemTotal(catalog, h.bags, item) + ItemBalance(Issued(catalog, h, r), item)
  {
    match r
    case Buying(shop, id, n) =>
      if CanBuy(catalog, h, shop, id, n) {
        AddEffect(catalog, h.bags, FindProduct(shop.value.products, id).value.itemId, n, item);
      }
    case Selling(shop, t, pos, n) =>
      if CanSell(catalog, h, shop, t, pos, n) {
        RemoveEffect(catalog, h.bags, t, pos, h.bags[t].slots[pos].itemId, n, item);
        TotalPositive(catalog[h.bags[t].slots[pos].itemId].sellPrice, n);
      }
  }

  /** Over any run of purchases and sales, accepted or refused, the gold is what it was less the
      purchases plus the sales, never negative nor beyond 64 bits, and every item's total moves
      the opposite way, by the counts on the receipts. */
  lemma {:induction false} LedgerBalances(catalog: Catalog, h: Holdings, rs: seq<Request>, item: int)
    requires h.gold >= 0 && item != 0
    ensures var after := ServeAll(catalog, h, rs); var receipts := Ledger(catalog, h, rs);
            && after.gold == h.gold + Balance(receipts) && 0 <= after.gold <= INT64_MAX
            && ItemTotal(catalog, after.bags, item) == ItemTotal(catalog, h.bags, item) + ItemBalance(receipts, item)
    decreases |rs|
  {
    if rs != [] {
      OneRequest(catalog, h, rs[0], item);
      LedgerBalances(catalog, Serve(catalog, h, rs[0]), rs[1..], item);
      BalanceJoins(Issued(catalog, h, rs[0]), Ledger(catalog, Serve(catalog, h, rs[0]), rs[1..]), item);
    }
  }

  lemma {:induction false} BalanceJoins(a: seq<Receipt>, b: seq<Receipt>, item: int)
    ensures Balance(a + b) == Balance(a) + Balance(b)
    ensures ItemBalance(a + b, item) == ItemBalance(a, item) + ItemBalance(b, item)
  {
    if a == [] {
      assert a + b == b;
    } else {
      assert (a + b)[1..] == a[1..] + b;
      BalanceJoins(a[1..], b, item);
    }
  }
}
