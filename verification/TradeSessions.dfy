/** The trade sessions: who trades with whom, what is offered, who is ready, what is executing.

    Two player ids share one session through its address, as in the source; addresses are never
    reused here. Every public operation is one section under the trade mutex, except that `Ready`
    releases the mutex while the transaction runs and takes it again if the transaction failed.
 */
module TradeSessions {
  import opened Common
  import opened TradeRows
  import opened TradeValidation
  import Items = InventoryManager

  datatype Session = Session(aId: int, bId: int, aReady: bool, bReady: bool, executing: bool,
                             aItems: seq<Offer>, bItems: seq<Offer>)

  /** `sessions` maps a player id to a session address, `heap` an address to the session. */
  datatype State = State(sessions: map<int, int>, heap: map<int, Session>, next: int)

  /** The data copied out of the session for the transaction. */
  datatype Execution = Execution(sid: int, aId: int, bId: int, aItems: seq<Offer>, bItems: seq<Offer>)

  datatype Reply = Started(data: Execution) | Waiting | Refused

  const EMPTY: State := State(map[], map[], 0)

  // ---------------------------------------------------------------- operations on the state

  function Find(s: State, player: int): (r: Option<int>)
    ensures r.Some? ==> r.value in s.heap
  {
    if player in s.sessions && s.sessions[player] in s.heap then Some(s.sessions[player]) else None
  }

  function Remove(s: State, sid: int): State
    requires sid in s.heap
  {
    s.(sessions := s.sessions - {s.heap[sid].aId, s.heap[sid].bId}, heap := s.heap - {sid})
  }

  function Create(s: State, a: int, b: int): (State, bool) {
    if a == b || a in s.sessions || b in s.sessions then (s, false)
    else (State(s.sessions[a := s.next][b := s.next],
                s.heap[s.next := Session(a, b, false, false, false, [], [])], s.next + 1), true)
  }

  function SlotTotal(items: seq<Offer>, slot: int): int {
    if items == [] then 0
    else SlotTotal(items[1..], slot) + if items[0].slot == slot then items[0].amount else 0
  }

  /** An upload's own fields, as the packet gave them; `None` is an id that is not a decimal int. */
  datatype Upload = Upload(id: Option<int>, amount: Int32, slot: Int32)

  /** The item is real, sane, and with what is already up from its slot still held there. */
  predicate CanAdd(catalog: Items.Catalog, inv: Items.Bags, items: seq<Offer>, u: Upload) {
    && u.id.Some? && u.id.value > 0 && u.amount > 0 && u.slot >= 0 && u.id.value in catalog
    && (forall o | o in items && o.slot == u.slot :: o.itemId == u.id.value)
    && u.amount + SlotTotal(items, u.slot) <= INT_MAX
    && HasItemBySlot(inv, SlotKey(catalog[u.id.value].inventoryType, u.slot), u.id.value,
       u.amount + SlotTotal(items, u.slot))
  }

  predicate Open(s: Session) { !s.aReady && !s.bReady && !s.executing }

  function ItemsOf(s: Session, player: int): seq<Offer> { if s.aId == player then s.aItems else s.bItems }

  predicate Belongs(s: Session, player: int) { s.aId == player || s.bId == player }

  function AddItem(s: Session, player: int, o: Offer): Session {
    if s.aId == player then s.(aItems := s.aItems + [o]) else s.(bItems := s.bItems + [o])
  }

  predicate UploadAccepted(s: State, catalog: Items.Catalog, inv: Items.Bags, player: int, u: Upload) {
    match Find(s, player)
    case None => false
    case Some(sid) => Belongs(s.heap[sid], player) && Open(s.heap[sid])
                      && CanAdd(catalog, inv, ItemsOf(s.heap[sid], player), u)
  }

  function UploadItem(s: State, catalog: Items.Catalog, inv: Items.Bags, player: int, u: Upload): State {
    if !UploadAccepted(s, catalog, inv, player, u) then s
    else
      var sid := s.sessions[player];
      var o := Offer(u.id.value, catalog[u.id.value].inventoryType, u.amount, u.slot);
      s.(heap := s.heap[sid := AddItem(s.heap[sid], player, o)])
  }

  function SetReady(s: Session, player: int): Session {
    if s.aId == player then s.(aReady := true) else s.(bReady := true)
  }

  ghost predicate BothHold(catalog: Items.Catalog, invA: Items.Bags, invB: Items.Bags, r: Session) {
    Valid(catalog, invA, r.aItems) && Valid(catalog, invB, r.bItems)
  }

  /** With both players ready and the last check answered: start the transaction or drop the session. */
  function Launch(s: State, sid: int, ok: bool): (State, Reply)
    requires sid in s.heap
  {
    var r := s.heap[sid];
    if ok then
      (s.(heap := s.heap[sid := r.(executing := true)]), Started(Execution(sid, r.aId, r.bId, r.aItems, r.bItems)))
    else (Remove(s, sid), Refused)
  }

  /** The session of a player who may still say ready. */
  function MayMark(s: State, player: int): (r: Option<int>)
    ensures r.Some? ==> r.value in s.heap
  {
    match Find(s, player)
    case None => None
    case Some(sid) => if s.heap[sid].executing || !Belongs(s.heap[sid], player) then None else Some(sid)
  }

  function Mark(s: State, player: int): State {
    match MayMark(s, player)
    case None => s
    case Some(sid) => s.(heap := s.heap[sid := SetReady(s.heap[sid], player)])
  }

  /** The locked part of Ready. */
  ghost function Ready(s: State, catalog: Items.Catalog, invA: Items.Bags, invB: Items.Bags, player: int)
    : (State, Reply)
  {
    match MayMark(s, player)
    case None => (s, Refused)
    case Some(sid) =>
      var u := Mark(s, player);
      var r := u.heap[sid];
      if !r.aReady || !r.bReady then (u, Waiting) else Launch(u, sid, BothHold(catalog, invA, invB, r))
  }

  /** After a failed transaction: drop the session if the player still has that one. */
  function ReadyFailed(s: State, player: int, sid: int): State {
    if Find(s, player) == Some(sid) then Remove(s, sid) else s
  }

  /** The handler of a successful Ready deletes the player's session. */
  function Delete(s: State, player: int): State {
    match Find(s, player)
    case None => s
    case Some(sid) => Remove(s, sid)
  }

  function Cancel(s: State, player: int): (State, bool) {
    match Find(s, player)
    case None => (s, false)
    case Some(sid) => if s.heap[sid].executing then (s, false) else (Remove(s, sid), true)
  }

  // ---------------------------------------------------------------- the service object

  ghost predicate Amounts(s: State) {
    forall sid | sid in s.heap :: forall o | o in s.heap[sid].aItems + s.heap[sid].bItems :: o.amount > 0
  }

  class TradeService {
    var sessions: map<int, int>
    var heap: map<int, Session>
    var next: int

    ghost function View(): State
      reads this
    {
      State(sessions, heap, next)
    }

    constructor ()
      ensures View() == EMPTY
    {
      sessions, heap, next := map[], map[], 0;
    }

    method CreateTradeSession(a: int, b: int) returns (ok: bool)
      modifies this
      ensures (View(), ok) == Create(old(View()), a, b)
    {
      if a == b || a in sessions || b in sessions { return false; }
      var session := Session(a, b, false, false, false, [], []);
      heap := heap[next := session];
      sessions := sessions[a := next];
      sessions := sessions[b := next];
      next := next + 1;
      return true;
    }

    method Upload(catalog: Items.Catalog, inv: Items.InventoryManager, player: int, u: Upload) returns (ok: bool)
      requires Amounts(View())
      modifies this
      ensures ok <==> UploadAccepted(old(View()), catalog, old(inv.View()), player, u)
      ensures View() == UploadItem(old(View()), catalog, old(inv.View()), player, u)
    {
      if u.id.None? || u.id.value <= 0 || u.amount <= 0 || u.slot < 0 || u.id.value !in catalog { return false; }
      if player !in sessions || sessions[player] !in heap { return false; }
      var sid := sessions[player];
      var session := heap[sid];
      if session.aId != player && session.bId != player { return false; }
      if session.aReady || session.bReady || session.executing { return false; }
      var items := if session.aId == player then session.aItems else session.bItems;
      assert forall o | o in items :: o in session.aItems + session.bItems;
      var total := OfferedSoFar(items, u.id.value, u.amount, u.slot);
      if total.None? { return false; }
      var ty := catalog[u.id.value].inventoryType;
      var has := inv.HasItemBySlot(ty, u.slot, u.id.value, total.value);
      if !has { return false; }
      var o := Offer(u.id.value, ty, u.amount, u.slot);
      session := if session.aId == player then session.(aItems := items + [o]) else session.(bItems := items + [o]);
      heap := heap[sid := session];
      return true;
    }

    method StartOrDrop(sid: int, ok: bool) returns (reply: Reply)
      requires sid in heap
      modifies this
      ensures View() == Launch(old(View()), sid, ok).0 && reply == Launch(old(View()), sid, ok).1
    {
      var session := heap[sid];
      if !ok {
        sessions := sessions - {session.aId, session.bId};
        heap := heap - {sid};
        return Refused;
      }
      heap := heap[sid := session.(executing := true)];
      return Started(Execution(sid, session.aId, session.bId, session.aItems, session.bItems));
    }

    method SetFlag(player: int) returns (found: Option<int>)
      modifies this
      ensures found == MayMark(old(View()), player) && View() == Mark(old(View()), player)
    {
      if player !in sessions || sessions[player] !in heap { return None; }
      var sid := sessions[player];
      var session := heap[sid];
      if session.executing { return None; }
      if session.aId == player {
        heap := heap[sid := session.(aReady := true)];
      } else if session.bId == player {
        heap := heap[sid := session.(bReady := true)];
      } else {
        return None;
      }
      return Some(sid);
    }

    method MarkReady(catalog: Items.Catalog, invA: Items.InventoryManager, invB: Items.InventoryManager, player: int)
      returns (reply: Reply)
      modifies this
      ensures View() == Ready(old(View()), catalog, old(invA.View()), old(invB.View()), player).0
      ensures reply == Ready(old(View()), catalog, old(invA.View()), old(invB.View()), player).1
    {
      var found := SetFlag(player);
      assert invA.View() == old(invA.View()) && invB.View() == old(invB.View());
      if found.None? { return Refused; }
      var session := heap[found.value];
      if !session.aReady || !session.bReady { return Waiting; }
      var ok := CheckBoth(catalog, invA, invB, session);
      reply := StartOrDrop(found.value, ok);
    }

    method CancelTrade(player: int) returns (ok: bool)
      modifies this
      ensures (View(), ok) == Cancel(old(View()), player)
    {
      if player !in sessions || sessions[player] !in heap { return false; }
      var sid := sessions[player];
      if heap[sid].executing { return false; }
      sessions := sessions - {heap[sid].aId, heap[sid].bId};
      heap := heap - {sid};
      return true;
    }

    method AfterFailure(player: int, sid: int)
      modifies this
      ensures View() == ReadyFailed(old(View()), player, sid)
    {
      if player in sessions && sessions[player] == sid && sid in heap {
        sessions := sessions - {heap[sid].aId, heap[sid].bId};
        heap := heap - {sid};
      }
    }

    method DeleteTradeSession(player: int)
      modifies this
      ensures View() == Delete(old(View()), player)
    {
      if player in sessions && sessions[player] in heap {
        var sid := sessions[player];
        sessions := sessions - {heap[sid].aId, heap[sid].bId};
        heap := heap - {sid};
      }
    }
  }

  method CheckBoth(catalog: Items.Catalog, invA: Items.InventoryManager, invB: Items.InventoryManager, r: Session)
    returns (ok: bool)
    ensures ok <==> BothHold(catalog, invA.View(), invB.View(), r)
  {
    ok := ValidateTradeItems(catalog, invA, r.aItems);
    if ok { ok := ValidateTradeItems(catalog, invB, r.bItems); }
  }

  /** The upload loop: same slot means same item, and the running total must stay an int. */
  method OfferedSoFar(items: seq<Offer>, itemId: int, amount: Int32, slot: int) returns (total: Option<int>)
    requires amount > 0 && forall o | o in items :: o.amount > 0
    ensures total.Some? ==> && (forall o | o in items && o.slot == slot :: o.itemId == itemId)
                            && total.value == amount + SlotTotal(items, slot) && total.value <= INT_MAX
    ensures total.None? ==> (exists o :: o in items && o.slot == slot && o.itemId != itemId)
                            || amount + SlotTotal(items, slot) > INT_MAX
  {
    var sum := amount;
    for i := 0 to |items|
      invariant forall o | o in items[..i] && o.slot == slot :: o.itemId == itemId
      invariant sum + SlotTotal(items[i..], slot) == amount + SlotTotal(items, slot)
      invariant sum <= INT_MAX
    {
      assert items[..i + 1] == items[..i] + [items[i]];
      assert items[i..][0] == items[i] && items[i..][1..] == items[i + 1..];
      if items[i].slot != slot { continue; }
      if items[i].itemId != itemId { return None; }
      sum := sum + items[i].amount;
      if sum > INT_MAX {
        SlotTotalNonNegative(items[i + 1..], slot);
        return None;
      }
    }
    assert items[..|items|] == items;
    return Some(sum);
  }

  lemma {:induction false} SlotTotalNonNegative(items: seq<Offer>, slot: int)
    requires forall o | o in items :: o.amount > 0
    ensures SlotTotal(items, slot) >= 0
  {
    if items != [] {
      assert items[0] in items;
      SlotTotalNonNegative(items[1..], slot);
    }
  }
}
