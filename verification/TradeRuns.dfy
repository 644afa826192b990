/** Every run of the trade sessions, in any order of operations by any players. */
module TradeRuns {
  import opened Common
  import opened TradeRows
  import opened TradeValidation
  import opened TradeOutcome
  import opened TradeSessions
  import Items = InventoryManager

  /** One locked section. `Settled` is the end of a transaction begun by a Ready of `player`;
      `Deleted` is its handler's clean-up after a commit. */
  datatype Event =
    | Created(a: int, b: int)
    | Uploaded(player: int, inv: Items.Bags, upload: Upload)
    | Readied(player: int, invA: Items.Bags, invB: Items.Bags)
    | Settled(sid: int, ok: bool)
    | Deleted(player: int)
    | Cancelled(player: int)

  datatype Frozen = Frozen(aItems: seq<Offer>, bItems: seq<Offer>)

  /** The state with its history: item lists at the first ready, transactions begun, the
      transactions still running with the player whose Ready runs them, and those committed. */
  datatype Trace = Trace(s: State, frozen: map<int, Frozen>, executed: seq<Execution>,
                         running: map<int, int>, committed: set<int>)

  const START: Trace := Trace(EMPTY, map[], [], map[], {})

  function Freeze(frozen: map<int, Frozen>, s: State, player: int): map<int, Frozen> {
    match MayMark(s, player)
    case None => frozen
    case Some(sid) =>
      if sid in frozen then frozen else frozen[sid := Frozen(s.heap[sid].aItems, s.heap[sid].bItems)]
  }

  ghost function Apply(catalog: Items.Catalog, t: Trace, e: Event): Trace {
    match e
    case Created(a, b) => t.(s := Create(t.s, a, b).0)
    case Uploaded(p, inv, u) => t.(s := UploadItem(t.s, catalog, inv, p, u))
    case Cancelled(p) => t.(s := Cancel(t.s, p).0)
    case Readied(p, invA, invB) =>
      var (s, reply) := Ready(t.s, catalog, invA, invB, p);
      var u := t.(s := s, frozen := Freeze(t.frozen, t.s, p));
      if reply.Started? then u.(executed := t.executed + [reply.data], running := t.running[reply.data.sid := p]) else u
    case Settled(sid, ok) =>
      if sid !in t.running then t
      else if ok then t.(running := t.running - {sid}, committed := t.committed + {sid})
      else t.(running := t.running - {sid}, s := ReadyFailed(t.s, t.running[sid], sid))
    case Deleted(p) =>
      match Find(t.s, p)
      case None => t
      case Some(sid) => if sid in t.committed then t.(s := Delete(t.s, p)) else t
  }

  ghost function Replay(catalog: Items.Catalog, t: Trace, es: seq<Event>): Trace
    decreases |es|
  {
    if es == [] then t else Replay(catalog, Apply(catalog, t, es[0]), es[1..])
  }

  // ---------------------------------------------------------------- what every state satisfies

  /** The index pairs two distinct players symmetrically. */
  ghost predicate Paired(s: State) {
    && (forall p | p in s.sessions :: s.sessions[p] in s.heap && Belongs(s.heap[s.sessions[p]], p))
    && (forall sid | sid in s.heap :: sid < s.next && s.heap[sid].aId != s.heap[sid].bId
                                      && s.heap[sid].aId in s.sessions && s.sessions[s.heap[sid].aId] == sid
                                      && s.heap[sid].bId in s.sessions && s.sessions[s.heap[sid].bId] == sid)
  }

  ghost predicate ItemsStored(catalog: Items.Catalog, s: State) {
    forall sid | sid in s.heap :: Stored(catalog, s.heap[sid].aItems) && Stored(catalog, s.heap[sid].bItems)
  }

  /** Frozen exactly from the first ready on, and never changed since. */
  ghost predicate FrozenKept(t: Trace) {
    && (forall sid | sid in t.frozen :: sid < t.s.next)
    && (forall sid | sid in t.s.heap ::
          var r := t.s.heap[sid];
          && ((r.aReady || r.bReady) <==> sid in t.frozen)
          && (sid in t.frozen ==> t.frozen[sid] == Frozen(r.aItems, r.bItems)))
  }

  ghost predicate HasExecuted(t: Trace, sid: int) { exists i :: 0 <= i < |t.executed| && t.executed[i].sid == sid }

  ghost predicate ExecutionsKept(t: Trace) {
    && (forall i, j | 0 <= i < j < |t.executed| :: t.executed[i].sid != t.executed[j].sid)
    && (forall i | 0 <= i < |t.executed| ::
          t.executed[i].sid in t.frozen
          && t.frozen[t.executed[i].sid] == Frozen(t.executed[i].aItems, t.executed[i].bItems))
    && (forall sid | sid in t.s.heap ::
          && (t.s.heap[sid].executing <==> HasExecuted(t, sid))
          && (t.s.heap[sid].executing ==> t.s.heap[sid].aReady && t.s.heap[sid].bReady)
          && (t.s.heap[sid].executing <==> sid in t.running || sid in t.committed))
    && (forall sid | sid in t.running ::
          sid in t.s.heap && Belongs(t.s.heap[sid], t.running[sid]) && sid !in t.committed)
    && (forall sid | sid in t.committed :: HasExecuted(t, sid))
  }

  ghost predicate Inv(catalog: Items.Catalog, t: Trace) {
    Paired(t.s) && ItemsStored(catalog, t.s) && FrozenKept(t) && ExecutionsKept(t)
  }

  // ---------------------------------------------------------------- each operation keeps it

  function WithItem(t: Trace, sid: int, p: int, o: Offer): Trace
    requires sid in t.s.heap
  {
    t.(s := t.s.(heap := t.s.heap[sid := AddItem(t.s.heap[sid], p, o)]))
  }

  lemma AddKeepsItems(catalog: Items.Catalog, t: Trace, sid: int, p: int, o: Offer)
    requires ItemsStored(catalog, t.s) && sid in t.s.heap && Stored(catalog, [o])
    ensures ItemsStored(catalog, WithItem(t, sid, p, o).s)
  {
    assert o in [o];
  }

  lemma AddKeepsHistory(t: Trace, sid: int, p: int, o: Offer)
    requires FrozenKept(t) && ExecutionsKept(t) && sid in t.s.heap && Open(t.s.heap[sid])
    ensures FrozenKept(WithItem(t, sid, p, o)) && ExecutionsKept(WithItem(t, sid, p, o))
  {
    assert forall i :: HasExecuted(t, i) <==> HasExecuted(WithItem(t, sid, p, o), i);
  }

  /** Adding an item to an open session keeps the rest. */
  lemma AddKeeps(catalog: Items.Catalog, t: Trace, sid: int, p: int, o: Offer)
    requires Inv(catalog, t) && sid in t.s.heap && Open(t.s.heap[sid]) && Stored(catalog, [o])
    ensures Inv(catalog, WithItem(t, sid, p, o))
  {
    AddKeepsItems(catalog, t, sid, p, o);
    AddKeepsHistory(t, sid, p, o);
  }

  lemma UploadKeeps(catalog: Items.Catalog, t: Trace, p: int, inv: Items.Bags, u: Upload)
    requires Inv(catalog, t)
    ensures Inv(catalog, Apply(catalog, t, Uploaded(p, inv, u)))
  {
    if UploadAccepted(t.s, catalog, inv, p, u) {
      AddKeeps(catalog, t, t.s.sessions[p], p, Offer(u.id.value, catalog[u.id.value].inventoryType, u.amount, u.slot));
    }
  }

  lemma CreateKeeps(catalog: Items.Catalog, t: Trace, a: int, b: int)
    requires Inv(catalog, t)
    ensures Inv(catalog, Apply(catalog, t, Created(a, b)))
  {
    var t' := Apply(catalog, t, Created(a, b));
    assert forall sid :: HasExecuted(t, sid) <==> HasExecuted(t', sid);
  }

  /** Removing a session that is not running keeps the rest. */
  lemma RemoveKeeps(catalog: Items.Catalog, t: Trace, sid: int)
    requires Inv(catalog, t) && sid in t.s.heap && sid !in t.running
    ensures Inv(catalog, t.(s := Remove(t.s, sid)))
  {
    var t' := t.(s := Remove(t.s, sid));
    assert forall i :: HasExecuted(t, i) <==> HasExecuted(t', i);
  }

  function Flagged(t: Trace, p: int): Trace {
    t.(s := Mark(t.s, p), frozen := Freeze(t.frozen, t.s, p))
  }

  lemma MarkKeepsFrozen(t: Trace, p: int)
    requires Paired(t.s) && FrozenKept(t)
    ensures FrozenKept(Flagged(t, p))
  {
  }

  lemma MarkKeepsExecutions(t: Trace, p: int)
    requires Paired(t.s) && FrozenKept(t) && ExecutionsKept(t)
    ensures ExecutionsKept(Flagged(t, p))
  {
    assert forall i :: HasExecuted(t, i) <==> HasExecuted(Flagged(t, p), i);
  }

  lemma MarkKeepsPairs(catalog: Items.Catalog, s: State, p: int)
    requires Paired(s) && ItemsStored(catalog, s)
    ensures Paired(Mark(s, p)) && ItemsStored(catalog, Mark(s, p))
  {
  }

  /** The ready flag is set and, if it is the session's first, the lists are frozen. */
  lemma MarkKeeps(catalog: Items.Catalog, t: Trace, p: int)
    requires Inv(catalog, t)
    ensures Inv(catalog, Flagged(t, p))
  {
    MarkKeepsFrozen(t, p);
    MarkKeepsExecutions(t, p);
    MarkKeepsPairs(catalog, t.s, p);
  }

  lemma ReadyKeeps(catalog: Items.Catalog, t: Trace, p: int, invA: Items.Bags, invB: Items.Bags)
    requires Inv(catalog, t)
    ensures Inv(catalog, Apply(catalog, t, Readied(p, invA, invB)))
  {
    var u := Flagged(t, p);
    MarkKeeps(catalog, t, p);
    match MayMark(t.s, p)
    case None =>
    case Some(sid) =>
      var reply := Ready(t.s, catalog, invA, invB, p).1;
      if reply.Started? {
        StartKeeps(catalog, u, sid, p);
      } else if reply.Refused? {
        RemoveKeeps(catalog, u, sid);
      }
  }

  lemma StartKeeps(catalog: Items.Catalog, t: Trace, sid: int, p: int)
    requires Inv(catalog, t) && sid in t.s.heap && !t.s.heap[sid].executing && Belongs(t.s.heap[sid], p)
    requires t.s.heap[sid].aReady && t.s.heap[sid].bReady
    ensures var r := t.s.heap[sid];
            Inv(catalog, t.(s := t.s.(heap := t.s.heap[sid := r.(executing := true)]),
                            executed := t.executed + [Execution(sid, r.aId, r.bId, r.aItems, r.bItems)],
                            running := t.running[sid := p]))
  {
    var r := t.s.heap[sid];
    var t' := t.(s := t.s.(heap := t.s.heap[sid := r.(executing := true)]),
                 executed := t.executed + [Execution(sid, r.aId, r.bId, r.aItems, r.bItems)],
                 running := t.running[sid := p]);
    assert t'.executed[|t.executed|].sid == sid;
    forall i ensures HasExecuted(t', i) <==> HasExecuted(t, i) || i == sid {
      if HasExecuted(t, i) {
        var j :| 0 <= j < |t.executed| && t.executed[j].sid == i;
        assert t'.executed[j].sid == i;
      }
    }
  }

  lemma SettleKeeps(catalog: Items.Catalog, t: Trace, sid: int, ok: bool)
    requires Inv(catalog, t)
    ensures Inv(catalog, Apply(catalog, t, Settled(sid, ok)))
  {
    if sid in t.running {
      var u := t.(running := t.running - {sid}, committed := t.committed + {sid});
      assert forall i :: HasExecuted(t, i) <==> HasExecuted(u, i);
      assert Inv(catalog, u);
      if !ok {
        RemoveKeeps(catalog, u, sid);
        var v := u.(s := Remove(u.s, sid));
        var t' := v.(committed := t.committed);
        assert forall i :: HasExecuted(t, i) <==> HasExecuted(t', i);
      }
    }
  }

  lemma ApplyKeeps(catalog: Items.Catalog, t: Trace, e: Event)
    requires Inv(catalog, t)
    ensures Inv(catalog, Apply(catalog, t, e))
  {
    match e
    case Created(a, b) => CreateKeeps(catalog, t, a, b);
    case Uploaded(p, inv, u) => UploadKeeps(catalog, t, p, inv, u);
    case Readied(p, invA, invB) => ReadyKeeps(catalog, t, p, invA, invB);
    case Settled(sid, ok) => SettleKeeps(catalog, t, sid, ok);
    case Deleted(p) =>
      if Find(t.s, p).Some? && Find(t.s, p).value in t.committed { RemoveKeeps(catalog, t, Find(t.s, p).value); }
    case Cancelled(p) =>
      if Find(t.s, p).Some? && !t.s.heap[Find(t.s, p).value].executing { RemoveKeeps(catalog, t, Find(t.s, p).value); }
  }

  /** Every reachable state pairs players symmetrically, keeps frozen lists, and has executed each
      session at most once with exactly the lists frozen at its first ready. */
  lemma {:induction false} EveryRunKeeps(catalog: Items.Catalog, t: Trace, es: seq<Event>)
    requires Inv(catalog, t)
    ensures Inv(catalog, Replay(catalog, t, es))
    decreases |es|
  {
    if es != [] {
      ApplyKeeps(catalog, t, es[0]);
      EveryRunKeeps(catalog, Apply(catalog, t, es[0]), es[1..]);
    }
  }

  /** So every state the empty service can reach is of this kind, whatever players ask in whatever
      order; in particular what has executed is what was frozen, once for each session. */
  lemma ReachableIsSound(catalog: Items.Catalog, es: seq<Event>)
    ensures var t := Replay(catalog, START, es);
            && Inv(catalog, t)
            && (forall p, q | p in t.s.sessions && q in t.s.sessions && t.s.sessions[p] == t.s.sessions[q] && p != q ::
                  var r := t.s.heap[t.s.sessions[p]]; (r.aId == p && r.bId == q) || (r.aId == q && r.bId == p))
            && (forall i, j | 0 <= i < |t.executed| && 0 <= j < |t.executed|
               && t.executed[i].sid == t.executed[j].sid :: i == j)
  {
    EveryRunKeeps(catalog, START, es);
  }

  // ---------------------------------------------------------------- consequences over runs

  lemma {:induction false} FrozenForever(catalog: Items.Catalog, t: Trace, es: seq<Event>, sid: int)
    requires sid in t.frozen
    ensures sid in Replay(catalog, t, es).frozen && Replay(catalog, t, es).frozen[sid] == t.frozen[sid]
    decreases |es|
  {
    if es != [] {
      FrozenForever(catalog, Apply(catalog, t, es[0]), es[1..], sid);
    }
  }

  /** Once either player is ready, the two item lists never change while the session lives. */
  lemma ItemsNeverChangeAfterReady(catalog: Items.Catalog, t: Trace, es: seq<Event>, sid: int)
    requires Inv(catalog, t) && sid in t.s.heap && (t.s.heap[sid].aReady || t.s.heap[sid].bReady)
    requires sid in Replay(catalog, t, es).s.heap
    ensures Replay(catalog, t, es).s.heap[sid].aItems == t.s.heap[sid].aItems
    ensures Replay(catalog, t, es).s.heap[sid].bItems == t.s.heap[sid].bItems
  {
    EveryRunKeeps(catalog, t, es);
    FrozenForever(catalog, t, es, sid);
  }

  /** While its transaction runs, nothing but its own end touches the session. */
  lemma RunningIsUntouchable(catalog: Items.Catalog, t: Trace, e: Event, sid: int)
    requires Inv(catalog, t) && sid in t.running
    requires !(e.Settled? && e.sid == sid)
    ensures var u := Apply(catalog, t, e);
            sid in u.s.heap && u.s.heap[sid] == t.s.heap[sid] && sid in u.running
  {
  }

  /** A transaction is begun only on what both inventories back at that moment, and it is the
      frozen lists; given mirrored rows it commits exactly when the row columns have room. */
  lemma StartedTradeSettlesIff(catalog: Items.Catalog, t: Trace, p: int, invA: Items.Bags, invB: Items.Bags,
      rows: Table)
    requires Inv(catalog, t) && Ready(t.s, catalog, invA, invB, p).1.Started?
    requires KnownTypes(invA) && KnownTypes(invB) && forall id | id in catalog :: catalog[id].inventoryType <= TYPE_MAX
    requires var d := Ready(t.s, catalog, invA, invB, p).1.data;
             ValidTable(rows) && d.aId > 0 && d.bId > 0 && Mirrored(rows, d.aId, invA) && Mirrored(rows, d.bId, invB)
    ensures var d := Ready(t.s, catalog, invA, invB, p).1.data;
            && d.aId != d.bId
            && Apply(catalog, t, Readied(p, invA, invB)).frozen[d.sid] == Frozen(d.aItems, d.bItems)
            && (Exchange(rows, d.aId, d.bId, d.aItems, d.bItems).Some?
                <==> Settles(rows, d.aId, d.bId, d.aItems, d.bItems))
  {
    var d := Ready(t.s, catalog, invA, invB, p).1.data;
    var sid := Find(t.s, p).value;
    ValidatedTradeSettlesIff(catalog, rows, d.aId, d.bId, invA, invB, d.aItems, d.bItems);
  }

  // ---------------------------------------------------------------- uploads and the last check agree

  lemma {:induction false} SlotTotalIsSum(items: seq<Offer>, slot: int, itemId: int, ty: int)
    requires forall o | o in items && o.slot == slot :: o.itemId == itemId && o.inventoryType == ty
    ensures SlotTotal(items, slot) == SumOf(items, OfferKey(SlotKey(ty, slot), itemId))
  {
    if items != [] {
      assert items[0] in items;
      SlotTotalIsSum(items[1..], slot, itemId, ty);
    }
  }

  /** An accepted upload keeps the whole list valid against the same inventory: the check before
      execution can only fail if an inventory has changed since. */
  lemma UploadKeepsValid(catalog: Items.Catalog, inv: Items.Bags, items: seq<Offer>, u: Upload)
    requires Stored(catalog, items) && Valid(catalog, inv, items) && CanAdd(catalog, inv, items, u)
    ensures var o := Offer(u.id.value, catalog[u.id.value].inventoryType, u.amount, u.slot);
            Stored(catalog, items + [o]) && Valid(catalog, inv, items + [o])
  {
    var o := Offer(u.id.value, catalog[u.id.value].inventoryType, u.amount, u.slot);
    WellTypedRetypes(catalog, items);
    assert WellTyped(catalog, items + [o]);
    WellTypedRetypes(catalog, items + [o]);
    SlotTotalIsSum(items, u.slot, o.itemId, o.inventoryType);
    forall p | p in items + [o]
      ensures SumOf(items + [o], KeyOf(p)) <= INT_MAX
              && HasItemBySlot(inv, KeyOf(p).key, p.itemId, SumOf(items + [o], KeyOf(p)))
    {
      SumOfAppend(items, o, KeyOf(p));
    }
  }
}
