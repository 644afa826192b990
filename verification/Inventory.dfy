/** One inventory: adding fills partial stacks first and empty slots after, in slot order. */
module Inventory {
  import opened Common

  datatype Slot = Slot(inventoryType: int, slotPos: int, enabled: bool, itemId: int, count: int)

  type Slots = map<int, Slot>

  datatype AddData = AddData(itemId: int, count: int, stackable: bool, maxStack: int)

  datatype AddResult = AddResult(inventoryType: int, slotPos: int, itemId: int, count: int)

  /** What a caller of AddItem has checked before. */
  predicate Sane(d: AddData) { d.itemId != 0 && (d.stackable ==> d.maxStack > 0) }

  // ---------------------------------------------------------------- the two passes

  datatype Pass = TopUp | FillEmpty

  datatype Progress = Progress(slots: Slots, remain: int, results: seq<AddResult>)

  predicate Takes(pass: Pass, slots: Slots, pos: int, d: AddData) {
    pos in slots && slots[pos].enabled
    && match pass
       case TopUp => slots[pos].itemId == d.itemId && slots[pos].count < d.maxStack
       case FillEmpty => slots[pos].itemId == 0
  }

  function Room(pass: Pass, slots: Slots, pos: int, d: AddData): int {
    if !Takes(pass, slots, pos, d) then 0
    else match pass
      case TopUp => d.maxStack - slots[pos].count
      case FillEmpty => if d.stackable then d.maxStack else 1
  }

  function Visit(pass: Pass, p: Progress, pos: int, d: AddData): Progress {
    if p.remain <= 0 || !Takes(pass, p.slots, pos, d) then p
    else
      var k := MinInt(Room(pass, p.slots, pos, d), p.remain);
      var slot := p.slots[pos].(itemId := d.itemId, count := (if pass.TopUp? then p.slots[pos].count else 0) + k);
      Progress(p.slots[pos := slot], p.remain - k,
               p.results + [AddResult(slot.inventoryType, pos, d.itemId, slot.count)])
  }

  function RunPass(pass: Pass, p: Progress, from: int, maxSlot: int, d: AddData): Progress
    decreases maxSlot - from
  {
    if from >= maxSlot then p else RunPass(pass, Visit(pass, p, from, d), from + 1, maxSlot, d)
  }

  function Adding(slots: Slots, maxSlot: int, d: AddData): Progress {
    var start := Progress(slots, d.count, []);
    if d.count <= 0 then start
    else RunPass(FillEmpty, if d.stackable then RunPass(TopUp, start, 0, maxSlot, d) else start, 0, maxSlot, d)
  }

  predicate AddSucceeds(slots: Slots, maxSlot: int, d: AddData) { d.count > 0 && Adding(slots, maxSlot, d).remain <= 0 }

  // ---------------------------------------------------------------- how much fits

  /** How many of an item one slot can still take. */
  function Free(slots: Slots, pos: int, d: AddData): int {
    if pos !in slots || !slots[pos].enabled then 0
    else if slots[pos].itemId == 0 then (if d.stackable then d.maxStack else 1)
    else if d.stackable && slots[pos].itemId == d.itemId && slots[pos].count < d.maxStack
    then d.maxStack - slots[pos].count
    else 0
  }

  function Capacity(slots: Slots, from: int, maxSlot: int, d: AddData): int
    decreases maxSlot - from
  {
    if from >= maxSlot then 0 else Free(slots, from, d) + Capacity(slots, from + 1, maxSlot, d)
  }

  function PassRoom(pass: Pass, slots: Slots, from: int, maxSlot: int, d: AddData): int
    decreases maxSlot - from
  {
    if from >= maxSlot then 0 else Room(pass, slots, from, d) + PassRoom(pass, slots, from + 1, maxSlot, d)
  }

  lemma {:induction false} SameRoom(pass: Pass, s: Slots, t: Slots, from: int, maxSlot: int, d: AddData)
    requires forall k | from <= k < maxSlot :: Room(pass, s, k, d) == Room(pass, t, k, d)
    ensures PassRoom(pass, s, from, maxSlot, d) == PassRoom(pass, t, from, maxSlot, d)
    decreases maxSlot - from
  {
    if from < maxSlot { SameRoom(pass, s, t, from + 1, maxSlot, d); }
  }

  lemma {:induction false} CapacityIsRoom(s: Slots, from: int, maxSlot: int, d: AddData)
    requires Sane(d)
    ensures Capacity(s, from, maxSlot, d)
            == PassRoom(FillEmpty, s, from, maxSlot, d)
               + if d.stackable then PassRoom(TopUp, s, from, maxSlot, d) else 0
    ensures PassRoom(TopUp, s, from, maxSlot, d) >= 0 && PassRoom(FillEmpty, s, from, maxSlot, d) >= 0
    decreases maxSlot - from
  {
    if from < maxSlot { CapacityIsRoom(s, from + 1, maxSlot, d); }
  }

  /** A pass hands out as much as it has room for, and no more than was left. */
  lemma {:induction false} PassRemain(pass: Pass, p: Progress, from: int, maxSlot: int, d: AddData)
    requires Sane(d) && p.remain >= 0 && (pass.TopUp? ==> d.stackable)
    ensures var room := PassRoom(pass, p.slots, from, maxSlot, d);
            RunPass(pass, p, from, maxSlot, d).remain == if p.remain <= room then 0 else p.remain - room
    decreases maxSlot - from
  {
    CapacityIsRoom(p.slots, from, maxSlot, d);
    if from < maxSlot {
      var q := Visit(pass, p, from, d);
      PassRemain(pass, q, from + 1, maxSlot, d);
      SameRoom(pass, p.slots, q.slots, from + 1, maxSlot, d);
      CapacityIsRoom(p.slots, from + 1, maxSlot, d);
    }
  }

  // ---------------------------------------------------------------- what changes

  /** A slot before and after an add: untouched, or holding more of the item within the stack. */
  predicate Grown(before: Slot, after: Slot, d: AddData) {
    && after == before.(itemId := d.itemId, count := after.count)
    && before.enabled
    && (before.itemId == 0 || (d.stackable && before.itemId == d.itemId && before.count < after.count))
    && (if d.stackable then after.count <= d.maxStack && (before.itemId == 0 ==> 0 < after.count) else after.count == 1)
  }

  ghost predicate Filled(before: Slots, after: Slots, lo: int, hi: int, d: AddData) {
    && after.Keys == before.Keys
    && forall k | k in before :: after[k] == before[k] || (lo <= k < hi && Grown(before[k], after[k], d))
  }

  function ReportOf(pos: int, slot: Slot): AddResult { AddResult(slot.inventoryType, pos, slot.itemId, slot.count) }

  /** The result list: each slot that changed once, with what it now holds. */
  ghost predicate Reports(before: Slots, after: Slots, results: seq<AddResult>) {
    && (forall r | r in results :: r.slotPos in before && r.slotPos in after && after[r.slotPos] != before[r.slotPos]
                                   && r == ReportOf(r.slotPos, after[r.slotPos]))
    && (forall i, j | 0 <= i < j < |results| :: results[i].slotPos != results[j].slotPos)
    && (forall k | k in before && k in after && after[k] != before[k] ::
          exists i :: 0 <= i < |results| && results[i].slotPos == k)
  }

  /** What holds before position `pos` of a pass is visited. */
  ghost predicate Midway(before: Slots, pass: Pass, p: Progress, pos: int, maxSlot: int, d: AddData) {
    && Filled(before, p.slots, 0, maxSlot, d) && Reports(before, p.slots, p.results)
    && (pass.TopUp? ==> forall k | k in before && pos <= k :: p.slots[k] == before[k])
  }

  lemma VisitFills(before: Slots, pass: Pass, p: Progress, pos: int, maxSlot: int, d: AddData)
    requires Sane(d) && 0 <= pos < maxSlot && (pass.TopUp? ==> d.stackable) && Midway(before, pass, p, pos, maxSlot, d)
    ensures Filled(before, Visit(pass, p, pos, d).slots, 0, maxSlot, d)
  {
  }

  lemma ReportOneMore(before: Slots, after: Slots, results: seq<AddResult>, pos: int, slot: Slot)
    requires after.Keys == before.Keys && Reports(before, after, results)
    requires pos in before && after[pos] == before[pos] && slot != before[pos]
    ensures Reports(before, after[pos := slot], results + [AddResult(slot.inventoryType, pos, slot.itemId, slot.count)])
  {
    var now, longer := after[pos := slot], results + [AddResult(slot.inventoryType, pos, slot.itemId, slot.count)];
    assert forall i | 0 <= i < |results| :: longer[i] == results[i] && results[i] in results;
    forall k | k in before && now[k] != before[k] ensures exists i :: 0 <= i < |longer| && longer[i].slotPos == k {
      if k == pos {
        assert longer[|results|].slotPos == k;
      } else {
        var i :| 0 <= i < |results| && results[i].slotPos == k;
        assert longer[i].slotPos == k;
      }
    }
  }

  lemma VisitReports(before: Slots, pass: Pass, p: Progress, pos: int, maxSlot: int, d: AddData)
    requires Sane(d) && 0 <= pos < maxSlot && (pass.TopUp? ==> d.stackable) && Midway(before, pass, p, pos, maxSlot, d)
    ensures Reports(before, Visit(pass, p, pos, d).slots, Visit(pass, p, pos, d).results)
  {
    var q := Visit(pass, p, pos, d);
    if q != p { ReportOneMore(before, p.slots, p.results, pos, q.slots[pos]); }
  }

  lemma {:induction false} PassKeeps(before: Slots, pass: Pass, p: Progress, from: int, maxSlot: int, d: AddData)
    requires Sane(d) && 0 <= from && (pass.TopUp? ==> d.stackable) && Midway(before, pass, p, from, maxSlot, d)
    ensures var q := RunPass(pass, p, from, maxSlot, d);
            Filled(before, q.slots, 0, maxSlot, d) && Reports(before, q.slots, q.results)
    decreases maxSlot - from
  {
    if from < maxSlot {
      VisitFills(before, pass, p, from, maxSlot, d);
      VisitReports(before, pass, p, from, maxSlot, d);
      PassKeeps(before, pass, Visit(pass, p, from, d), from + 1, maxSlot, d);
    }
  }

  lemma {:induction false} TopUpKeepsEmpties(p: Progress, from: int, maxSlot: int, d: AddData, k: int)
    requires Sane(d)
    ensures Room(FillEmpty, RunPass(TopUp, p, from, maxSlot, d).slots, k, d) == Room(FillEmpty, p.slots, k, d)
    decreases maxSlot - from
  {
    if from < maxSlot { TopUpKeepsEmpties(Visit(TopUp, p, from, d), from + 1, maxSlot, d, k); }
  }

  /** AddItem succeeds exactly when the count is positive and fits what is free. */
  lemma AddSucceedsIff(slots: Slots, maxSlot: int, d: AddData)
    requires Sane(d)
    ensures AddSucceeds(slots, maxSlot, d) <==> 0 < d.count <= Capacity(slots, 0, maxSlot, d)
    ensures AddSucceeds(slots, maxSlot, d) ==> Adding(slots, maxSlot, d).remain == 0
  {
    if d.count > 0 {
      CapacityIsRoom(slots, 0, maxSlot, d);
      var start := Progress(slots, d.count, []);
      if d.stackable {
        var p := RunPass(TopUp, start, 0, maxSlot, d);
        PassRemain(TopUp, start, 0, maxSlot, d);
        forall k ensures Room(FillEmpty, slots, k, d) == Room(FillEmpty, p.slots, k, d) {
          TopUpKeepsEmpties(start, 0, maxSlot, d, k);
        }
        SameRoom(FillEmpty, slots, p.slots, 0, maxSlot, d);
        PassRemain(FillEmpty, p, 0, maxSlot, d);
      } else {
        PassRemain(FillEmpty, start, 0, maxSlot, d);
      }
    }
  }

  /** Whatever AddItem changes is an enabled slot within the range that was empty or held the item,
      filled no higher than its stack; and the results name exactly those slots, once each, with
      their final contents. */
  lemma AddFills(slots: Slots, maxSlot: int, d: AddData)
    requires Sane(d)
    ensures var p := Adding(slots, maxSlot, d);
            Filled(slots, p.slots, 0, maxSlot, d) && Reports(slots, p.slots, p.results)
  {
    var start := Progress(slots, d.count, []);
    if d.stackable { PassKeeps(slots, TopUp, start, 0, maxSlot, d); }
    var p := if d.stackable then RunPass(TopUp, start, 0, maxSlot, d) else start;
    PassKeeps(slots, FillEmpty, p, 0, maxSlot, d);
  }

  // ---------------------------------------------------------------- in what order

  /** A slot of the pass that can take no more of the item. */
  predicate Full(slot: Slot, d: AddData) {
    slot.itemId == d.itemId && slot.count == if d.stackable then d.maxStack else 1
  }

  lemma {:induction false} PassLeavesBelow(pass: Pass, p: Progress, from: int, maxSlot: int, d: AddData, k: int)
    requires k < from
    ensures k in p.slots <==> k in RunPass(pass, p, from, maxSlot, d).slots
    ensures k in p.slots ==> RunPass(pass, p, from, maxSlot, d).slots[k] == p.slots[k]
    decreases maxSlot - from
  {
    if from < maxSlot { PassLeavesBelow(pass, Visit(pass, p, from, d), from + 1, maxSlot, d, k); }
  }

  /** A slot the pass could use is full after it, unless nothing was left for any later one. */
  lemma {:induction false} PassFillsInOrder(pass: Pass, p: Progress, from: int, maxSlot: int, d: AddData, i: int)
    requires Sane(d) && (pass.TopUp? ==> d.stackable) && p.remain >= 0
    requires from <= i < maxSlot && Takes(pass, p.slots, i, d)
    ensures var q := RunPass(pass, p, from, maxSlot, d);
            i in q.slots
            && (Full(q.slots[i], d)
                || (q.remain == 0 && forall j | i < j && j in p.slots :: j in q.slots && q.slots[j] == p.slots[j]))
    decreases maxSlot - from
  {
    var v := Visit(pass, p, from, d);
    if from == i {
      PassLeavesBelow(pass, v, from + 1, maxSlot, d, i);
      if v.remain <= 0 { PassDone(pass, v, from + 1, maxSlot, d); }
    } else {
      PassFillsInOrder(pass, v, from + 1, maxSlot, d, i);
    }
  }

  /** Partial stacks come before empty slots, and within each kind the lower slot comes first: a slot
      is not touched while one that comes before it could take more. */
  lemma AddsInOrder(slots: Slots, maxSlot: int, d: AddData, i: int, j: int)
    requires Sane(d) && d.count > 0 && 0 <= i < maxSlot && 0 <= j < maxSlot && i in slots && j in slots
    requires slots[i].enabled && slots[j].enabled
    requires var partial := slots[i].itemId == d.itemId && d.stackable && slots[i].count < d.maxStack;
             || (partial && slots[j].itemId == 0)
             || (partial && slots[j].itemId == d.itemId && i < j)
             || (slots[i].itemId == 0 && slots[j].itemId == 0 && i < j)
    ensures var after := Adding(slots, maxSlot, d).slots;
            i in after && j in after && (after[j] != slots[j] ==> Full(after[i], d))
  {
    AddFills(slots, maxSlot, d);
    var start := Progress(slots, d.count, []);
    var p := if d.stackable then RunPass(TopUp, start, 0, maxSlot, d) else start;
    if d.stackable {
      PassRemain(TopUp, start, 0, maxSlot, d);
      TopUpOnlyPartial(start, 0, maxSlot, d, j);
      TopUpOnlyPartial(start, 0, maxSlot, d, i);
    }
    FillOnlyEmpty(p, 0, maxSlot, d, i);
    FillOnlyEmpty(p, 0, maxSlot, d, j);
    if slots[i].itemId == 0 {
      PassFillsInOrder(FillEmpty, p, 0, maxSlot, d, i);
    } else {
      PassFillsInOrder(TopUp, start, 0, maxSlot, d, i);
      if p.remain == 0 { PassDone(FillEmpty, p, 0, maxSlot, d); }
    }
  }

  lemma {:induction false} TopUpOnlyPartial(p: Progress, from: int, maxSlot: int, d: AddData, k: int)
    requires k in p.slots
    ensures var q := RunPass(TopUp, p, from, maxSlot, d);
            && k in q.slots && (Takes(TopUp, p.slots, k, d) || q.slots[k] == p.slots[k])
            && q.slots[k].itemId == p.slots[k].itemId && q.slots[k].enabled == p.slots[k].enabled
    decreases maxSlot - from
  {
    if from < maxSlot {
      TopUpOnlyPartial(Visit(TopUp, p, from, d), from + 1, maxSlot, d, k);
    }
  }

  lemma {:induction false} FillOnlyEmpty(p: Progress, from: int, maxSlot: int, d: AddData, k: int)
    requires d.itemId != 0 && k in p.slots
    ensures var q := RunPass(FillEmpty, p, from, maxSlot, d);
            k in q.slots && (p.slots[k].itemId == 0 || q.slots[k] == p.slots[k])
    decreases maxSlot - from
  {
    if from < maxSlot {
      FillOnlyEmpty(Visit(FillEmpty, p, from, d), from + 1, maxSlot, d, k);
    }
  }

  // ---------------------------------------------------------------- totals

  function Held(slot: Slot, item: int): int { if slot.itemId == item then slot.count else 0 }

  /** How many of an item all slots hold together. */
  ghost function Total(slots: Slots, item: int): int
    decreases |slots|
  {
    if forall k :: k !in slots then 0
    else var k :| k in slots; Held(slots[k], item) + Total(slots - {k}, item)
  }

  lemma {:induction false} TotalWithout(slots: Slots, k: int, item: int)
    requires k in slots
    ensures Total(slots, item) == Held(slots[k], item) + Total(slots - {k}, item)
    decreases |slots|
  {
    var j :| j in slots && Total(slots, item) == Held(slots[j], item) + Total(slots - {j}, item);
    if j != k {
      TotalWithout(slots - {j}, k, item);
      TotalWithout(slots - {k}, j, item);
      assert slots - {j} - {k} == slots - {k} - {j};
    }
  }

  lemma TotalUpdate(slots: Slots, k: int, slot: Slot, item: int)
    requires k in slots
    ensures Total(slots[k := slot], item) == Total(slots, item) - Held(slots[k], item) + Held(slot, item)
  {
    TotalWithout(slots, k, item);
    TotalWithout(slots[k := slot], k, item);
    assert slots[k := slot] - {k} == slots - {k};
  }

  lemma {:induction false} PassTotal(pass: Pass, p: Progress, from: int, maxSlot: int, d: AddData, item: int)
    requires item != 0 && d.itemId != 0
    ensures var q := RunPass(pass, p, from, maxSlot, d);
            Total(q.slots, item) == Total(p.slots, item) + if item == d.itemId then p.remain - q.remain else 0
    decreases maxSlot - from
  {
    if from < maxSlot {
      var q := Visit(pass, p, from, d);
      if q != p { TotalUpdate(p.slots, from, q.slots[from], item); }
      PassTotal(pass, q, from + 1, maxSlot, d, item);
    }
  }

  /** A successful AddItem raises the item's total by exactly the count and no other total. */
  lemma AddTotal(slots: Slots, maxSlot: int, d: AddData, item: int)
    requires Sane(d) && item != 0 && AddSucceeds(slots, maxSlot, d)
    ensures Total(Adding(slots, maxSlot, d).slots, item) == Total(slots, item) + if item == d.itemId then d.count else 0
  {
    AddSucceedsIff(slots, maxSlot, d);
    var start := Progress(slots, d.count, []);
    PassTotal(TopUp, start, 0, maxSlot, d, item);
    var p := if d.stackable then RunPass(TopUp, start, 0, maxSlot, d) else start;
    PassTotal(FillEmpty, p, 0, maxSlot, d, item);
  }

  // ---------------------------------------------------------------- the inventory object

  predicate Has(slots: Slots, pos: int, itemId: int, count: int) {
    pos in slots && slots[pos].itemId == itemId && slots[pos].count >= count
  }

  function Removed(slots: Slots, pos: int, count: int): Slots
    requires pos in slots
  {
    var left := slots[pos].count - count;
    slots[pos := slots[pos].(count := left, itemId := if left == 0 then 0 else slots[pos].itemId)]
  }

  /** Removing lowers that item's total by the count and no other total. */
  lemma RemoveTotal(slots: Slots, pos: int, count: int, item: int)
    requires pos in slots && item != 0
    ensures Total(Removed(slots, pos, count), item)
            == Total(slots, item) - if item == slots[pos].itemId then count else 0
  {
    TotalUpdate(slots, pos, Removed(slots, pos, count)[pos], item);
  }

  /** A removal lowers the one slot, emptying it exactly when nothing is left, and touches no other. */
  lemma RemoveEffect(slots: Slots, pos: int, count: int)
    requires pos in slots
    ensures var u := Removed(slots, pos, count); var left := slots[pos].count - count;
            && u.Keys == slots.Keys
            && u[pos] == slots[pos].(itemId := if left == 0 then 0 else slots[pos].itemId, count := left)
            && forall k | k in slots && k != pos :: u[k] == slots[k]
  {
  }

  function Swapped(slots: Slots, from: int, to: int): Slots
    requires from in slots && to in slots
  {
    slots[from := slots[from].(itemId := slots[to].itemId, count := slots[to].count)]
         [to := slots[to].(itemId := slots[from].itemId, count := slots[from].count)]
  }

  /** A move exchanges what the two slots hold and nothing else about them, or about any other. */
  lemma MoveExchanges(slots: Slots, from: int, to: int)
    requires from in slots && to in slots && from != to
    ensures var u := Swapped(slots, from, to);
            && u.Keys == slots.Keys
            && u[from].itemId == slots[to].itemId && u[from].count == slots[to].count
            && u[to].itemId == slots[from].itemId && u[to].count == slots[from].count
            && forall k | k in slots ::
                 (k != from && k != to ==> u[k] == slots[k])
                 && u[k].(itemId := slots[k].itemId, count := slots[k].count) == slots[k]
  {
  }

  /** A move keeps every total, and moving back restores the inventory. */
  lemma MoveKeepsTotals(slots: Slots, from: int, to: int, item: int)
    requires from in slots && to in slots && from != to
    ensures Total(Swapped(slots, from, to), item) == Total(slots, item)
    ensures Swapped(Swapped(slots, from, to), to, from) == slots
  {
    var mid := slots[from := slots[from].(itemId := slots[to].itemId, count := slots[to].count)];
    TotalUpdate(slots, from, mid[from], item);
    TotalUpdate(mid, to, Swapped(slots, from, to)[to], item);
  }

  datatype SlotUpdate = SlotUpdate(slotPos: int, itemId: int, count: int)

  class Inventory {
    var slots: Slots
    var inventoryType: int
    var maxSlot: int
    var currentSlots: int

    constructor (inventoryType: int, maxSlot: int, currentSlots: int)
      ensures this.inventoryType == inventoryType && this.maxSlot == maxSlot && this.currentSlots == currentSlots
      ensures forall k :: k in slots <==> 0 <= k < maxSlot
      ensures forall k | k in slots :: slots[k] == Slot(inventoryType, k, true, 0, 0)
    {
      this.inventoryType, this.maxSlot, this.currentSlots := inventoryType, maxSlot, currentSlots;
      slots := map[];
      new;
      for i := 0 to ClampInt(maxSlot, 0, maxSlot)
        invariant this.inventoryType == inventoryType && this.maxSlot == maxSlot && this.currentSlots == currentSlots
        invariant forall k :: k in slots <==> 0 <= k < i
        invariant forall k | k in slots :: slots[k] == Slot(inventoryType, k, true, 0, 0)
      {
        slots := slots[i := Slot(inventoryType, i, true, 0, 0)];
      }
    }

    constructor CopyOf(other: Inventory)
      ensures slots == other.slots && inventoryType == other.inventoryType
              && maxSlot == other.maxSlot && currentSlots == other.currentSlots
    {
      slots, inventoryType := other.slots, other.inventoryType;
      maxSlot, currentSlots := other.maxSlot, other.currentSlots;
    }

    /** One round of either loop of AddItem. */
    method TakeInto(pass: Pass, pos: int, d: AddData, remain: int, results: seq<AddResult>)
      returns (left: int, reported: seq<AddResult>)
      requires remain > 0
      modifies this`slots
      ensures Progress(slots, left, reported) == Visit(pass, Progress(old(slots), remain, results), pos, d)
    {
      left, reported := remain, results;
      if pos !in slots { return; }
      var slot := slots[pos];
      if !slot.enabled { return; }
      if pass.TopUp? {
        if slot.itemId != d.itemId || slot.count >= d.maxStack { return; }
        var addCount := MinInt(d.maxStack - slot.count, remain);
        slot := slot.(itemId := d.itemId, count := slot.count + addCount);
        left := remain - addCount;
      } else {
        if slot.itemId != 0 { return; }
        var addCount := if d.stackable then MinInt(d.maxStack, remain) else 1;
        slot := slot.(itemId := d.itemId, count := addCount);
        left := remain - addCount;
      }
      slots := slots[pos := slot];
      reported := results + [AddResult(slot.inventoryType, pos, d.itemId, slot.count)];
    }

    /** On failure the slots may be partly filled; the manager works on a copy for that reason. */
    method AddItem(d: AddData) returns (ok: bool, results: seq<AddResult>)
      modifies this`slots
      ensures ok <==> AddSucceeds(old(slots), maxSlot, d)
      ensures slots == Adding(old(slots), maxSlot, d).slots && results == Adding(old(slots), maxSlot, d).results
    {
      results := [];
      if d.count <= 0 { return false, results; }
      var remain := d.count;
      ghost var start := Progress(slots, d.count, []);
      if d.stackable {
        for pos := 0 to ClampInt(maxSlot, 0, maxSlot)
          invariant remain > 0
          invariant RunPass(TopUp, Progress(slots, remain, results), pos, maxSlot, d)
                    == RunPass(TopUp, start, 0, maxSlot, d)
        {
          remain, results := TakeInto(TopUp, pos, d, remain, results);
          if remain <= 0 {
            PassDone(TopUp, Progress(slots, remain, results), pos + 1, maxSlot, d);
            PassDone(FillEmpty, Progress(slots, remain, results), 0, maxSlot, d);
            return true, results;
          }
        }
      }
      ghost var filling := Progress(slots, remain, results);
      for pos := 0 to ClampInt(maxSlot, 0, maxSlot)
        invariant remain > 0
        invariant RunPass(FillEmpty, Progress(slots, remain, results), pos, maxSlot, d)
                  == RunPass(FillEmpty, filling, 0, maxSlot, d)
      {
        remain, results := TakeInto(FillEmpty, pos, d, remain, results);
        if remain <= 0 {
          PassDone(FillEmpty, Progress(slots, remain, results), pos + 1, maxSlot, d);
          return true, results;
        }
      }
      return false, results;
    }

    method HasItemBySlot(pos: int, itemId: int, count: int) returns (ok: bool)
      ensures ok <==> Has(slots, pos, itemId, count)
    {
      if pos !in slots { return false; }
      if slots[pos].itemId != itemId { return false; }
      return slots[pos].count >= count;
    }

    method RemoveItemBySlot(pos: int, itemId: int, count: int) returns (ok: bool)
      modifies this`slots
      ensures ok <==> Has(old(slots), pos, itemId, count)
      ensures slots == if ok then Removed(old(slots), pos, count) else old(slots)
    {
      if pos !in slots { return false; }
      if slots[pos].itemId != itemId { return false; }
      if slots[pos].count < count { return false; }
      slots := slots[pos := slots[pos].(count := slots[pos].count - count)];
      if slots[pos].count == 0 {
        slots := slots[pos := slots[pos].(itemId := 0, count := 0)];
      }
      return true;
    }

    method MoveItemSlot(from: int, to: int) returns (ok: bool, updates: seq<SlotUpdate>)
      modifies this`slots
      ensures ok <==> from != to && from in old(slots) && to in old(slots) && old(slots)[from].itemId != 0
      ensures slots == if ok then Swapped(old(slots), from, to) else old(slots)
      ensures updates == if ok then [SlotUpdate(from, slots[from].itemId, slots[from].count),
                                     SlotUpdate(to, slots[to].itemId, slots[to].count)] else []
    {
      if from == to || from !in slots || to !in slots || slots[from].itemId == 0 { return false, []; }
      var a, b := slots[from], slots[to];
      slots := slots[from := a.(itemId := b.itemId, count := b.count)];
      slots := slots[to := b.(itemId := a.itemId, count := a.count)];
      updates := [SlotUpdate(from, slots[from].itemId, slots[from].count),
                  SlotUpdate(to, slots[to].itemId, slots[to].count)];
      ok := true;
    }

    method Swap(other: Inventory)
      modifies this, other
      ensures slots == old(other.slots) && other.slots == old(slots)
      ensures inventoryType == old(other.inventoryType) && other.inventoryType == old(inventoryType)
      ensures maxSlot == old(other.maxSlot) && other.maxSlot == old(maxSlot)
      ensures currentSlots == old(other.currentSlots) && other.currentSlots == old(currentSlots)
    {
      slots, other.slots := other.slots, slots;
      inventoryType, other.inventoryType := other.inventoryType, inventoryType;
      maxSlot, other.maxSlot := other.maxSlot, maxSlot;
      currentSlots, other.currentSlots := other.currentSlots, currentSlots;
    }
  }

  lemma {:induction false} PassDone(pass: Pass, p: Progress, from: int, maxSlot: int, d: AddData)
    requires p.remain <= 0
    ensures RunPass(pass, p, from, maxSlot, d) == p
    decreases maxSlot - from
  {
    if from < maxSlot { PassDone(pass, p, from + 1, maxSlot, d); }
  }
}
