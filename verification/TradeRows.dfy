/** The `character_inventory` table and the row operations of a trade.

    A row operation that affects no row, or that the column types refuse, is `None`; the caller
    then rolls the transaction back. `item_count` is INT, `slot_pos` SMALLINT and
    `inventory_type` TINYINT.
 */
module TradeRows {
  import opened Common

  const INT_MAX: int := 0x7FFF_FFFF
  const SLOT_MIN: int := -32768
  const SLOT_MAX: int := 32767
  const TYPE_MAX: int := 127

  /** The primary key. */
  datatype Key = Key(charId: int, inventoryType: int, slot: int)

  datatype Row = Row(itemId: int, count: int)

  type Table = map<Key, Row>

  /** An item put up for trade: how many, out of which inventory slot. */
  datatype Offer = Offer(itemId: int, inventoryType: int, amount: int, slot: int)
  {
    function GetKind(): Kind { Kind(inventoryType, itemId) }
  }

  datatype Kind = Kind(inventoryType: int, itemId: int)

  ghost predicate ValidTable(t: Table) {
    forall k | k in t :: SLOT_MIN <= k.slot <= SLOT_MAX && t[k].count <= INT_MAX
  }

  // ---------------------------------------------------------------- statements

  predicate RowHolds(t: Table, key: Key, itemId: int, count: int) {
    key in t && t[key].itemId == itemId && t[key].count >= count
  }

  function UpdateMinus(t: Table, key: Key, itemId: int, amount: int): Option<Table> {
    if RowHolds(t, key, itemId, amount) then Some(t[key := Row(itemId, t[key].count - amount)]) else None
  }

  function DeleteEmpty(t: Table, key: Key, itemId: int): Table {
    if key in t && t[key].itemId == itemId && t[key].count <= 0 then t - {key} else t
  }

  function UpdatePlus(t: Table, key: Key, itemId: int, amount: int): Option<Table> {
    if key in t && t[key].itemId == itemId && t[key].count + amount <= INT_MAX
    then Some(t[key := Row(itemId, t[key].count + amount)]) else None
  }

  function Insert(t: Table, key: Key, row: Row): Option<Table> {
    if key !in t && key.slot <= SLOT_MAX && key.inventoryType <= TYPE_MAX && row.count <= INT_MAX
    then Some(t[key := row]) else None
  }

  predicate HoldsKind(t: Table, charId: int, kind: Kind, slot: int) {
    Key(charId, kind.inventoryType, slot) in t && t[Key(charId, kind.inventoryType, slot)].itemId == kind.itemId
  }

  // The termination measures of the slot searches name `charId` as well, so that the verifier does
  // not evaluate them slot by slot on a constant first slot.

  /** ORDER BY slot_pos LIMIT 1, from slot `s` on. */
  function FirstSlotFrom(t: Table, charId: int, kind: Kind, s: int): (r: Option<int>)
    ensures r.Some? ==> s <= r.value <= SLOT_MAX && HoldsKind(t, charId, kind, r.value)
    ensures forall i | s <= i <= SLOT_MAX && (r.Some? ==> i < r.value) :: !HoldsKind(t, charId, kind, i)
    decreases SLOT_MAX + 1 - s, charId
  {
    if s > SLOT_MAX then None
    else if HoldsKind(t, charId, kind, s) then Some(s)
    else FirstSlotFrom(t, charId, kind, s + 1)
  }

  function FirstSlot(t: Table, charId: int, kind: Kind): Option<int> { FirstSlotFrom(t, charId, kind, SLOT_MIN) }

  predicate Owns(t: Table, charId: int, kind: Kind) { FirstSlot(t, charId, kind).Some? }

  /** COALESCE(MAX(slot_pos) + 1, 0), over slots up to `s`. */
  function NextSlotUpTo(t: Table, charId: int, inventoryType: int, s: int): (r: int)
    requires SLOT_MIN - 1 <= s <= SLOT_MAX
    ensures r <= SLOT_MAX + 1
    ensures forall i | SLOT_MIN <= i <= s && r <= i :: Key(charId, inventoryType, i) !in t
    ensures (r == 0 && forall i | SLOT_MIN <= i <= s :: Key(charId, inventoryType, i) !in t)
            || (SLOT_MIN < r <= s + 1 && Key(charId, inventoryType, r - 1) in t)
    decreases s - SLOT_MIN + 1, charId
  {
    if s < SLOT_MIN then 0
    else if Key(charId, inventoryType, s) in t then s + 1
    else NextSlotUpTo(t, charId, inventoryType, s - 1)
  }

  function NextSlot(t: Table, charId: int, inventoryType: int): int {
    NextSlotUpTo(t, charId, inventoryType, SLOT_MAX)
  }

  // ---------------------------------------------------------------- one item

  function Decrease(t: Table, charId: int, o: Offer): Option<Table> {
    if charId <= 0 || o.itemId <= 0 || o.inventoryType < 0 || o.slot < 0 || o.amount <= 0 then None
    else
      var key := Key(charId, o.inventoryType, o.slot);
      match UpdateMinus(t, key, o.itemId, o.amount)
      case None => None
      case Some(u) => Some(DeleteEmpty(u, key, o.itemId))
  }

  function Increase(t: Table, charId: int, o: Offer): Option<Table> {
    if charId <= 0 || o.inventoryType < 0 || o.itemId <= 0 || o.amount <= 0 then None
    else match FirstSlot(t, charId, o.GetKind())
      case Some(s) => UpdatePlus(t, Key(charId, o.inventoryType, s), o.itemId, o.amount)
      case None =>
        Insert(t, Key(charId, o.inventoryType, NextSlot(t, charId, o.inventoryType)), Row(o.itemId, o.amount))
  }

  function Transfer(t: Table, giver: int, taker: int, offers: seq<Offer>): Option<Table>
    decreases |offers|
  {
    if offers == [] then Some(t)
    else match Decrease(t, giver, offers[0])
      case None => None
      case Some(u) =>
        match Increase(u, taker, offers[0])
        case None => None
        case Some(v) => Transfer(v, giver, taker, offers[1..])
  }

  function Exchange(t: Table, a: int, b: int, aItems: seq<Offer>, bItems: seq<Offer>): Option<Table> {
    match Transfer(t, a, b, aItems)
    case None => None
    case Some(u) => Transfer(u, b, a, bItems)
  }

  // ---------------------------------------------------------------- the transaction

  /** What COMMIT answers. A failure may come after the server has stored the changes. */
  datatype Commit = Committed | CommitFailed(stored: bool)

  class InventoryDb {
    var rows: Table

    constructor (rows: Table)
      ensures this.rows == rows
    {
      this.rows := rows;
    }

    /** One direction of the trade inside an open transaction. The server answers for the first
        `lasts` transfers. */
    method TransferAll(giver: int, taker: int, offers: seq<Offer>, lasts: nat) returns (ok: bool)
      modifies this
      ensures ok <==> Transfer(old(rows), giver, taker, offers).Some? && |offers| <= lasts
      ensures ok ==> Some(rows) == Transfer(old(rows), giver, taker, offers)
    {
      var i := 0;
      while i < |offers|
        invariant 0 <= i <= |offers| && (i <= lasts || i == 0)
        invariant Transfer(old(rows), giver, taker, offers) == Transfer(rows, giver, taker, offers[i..])
      {
        assert offers[i..][0] == offers[i] && offers[i..][1..] == offers[i + 1..];
        if i >= lasts { return false; }
        var less := Decrease(rows, giver, offers[i]);
        if less.None? { return false; }
        var more := Increase(less.value, taker, offers[i]);
        if more.None? { return false; }
        rows := more.value;
        i := i + 1;
      }
      return true;
    }

    /** START TRANSACTION, both directions, then COMMIT or ROLLBACK. */
    method Execute(a: int, b: int, aItems: seq<Offer>, bItems: seq<Offer>,
                   connected: bool, lasts: nat, commit: Commit) returns (ok: bool)
      modifies this
      ensures ok <==> connected && commit == Committed && Exchange(old(rows), a, b, aItems, bItems).Some?
                      && |aItems| + |bItems| <= lasts
      ensures ok ==> Some(rows) == Exchange(old(rows), a, b, aItems, bItems)
      ensures !ok && commit != CommitFailed(true) ==> rows == old(rows)
      ensures !ok ==> rows == old(rows) || Some(rows) == Exchange(old(rows), a, b, aItems, bItems)
    {
      if !connected { return false; }
      var before := rows;
      ok := TransferAll(a, b, aItems, lasts);
      if ok {
        ok := TransferAll(b, a, bItems, lasts - |aItems|);
      }
      if !ok || commit == CommitFailed(false) { rows := before; }
      ok := ok && commit == Committed;
    }
  }
}
