/** What each operation on a trade session does, to whom and when, and who has agreed to a trade. */
module TradeSteps {
  import opened Common
  import opened TradeRows
  import opened TradeValidation
  import opened TradeOutcome
  import opened TradeSessions
  import opened TradeRuns
  import Items = InventoryManager

  /** The session of both its players, and of nobody else, is gone. */
  ghost predicate Gone(s: State, u: State, sid: int)
    requires sid in s.heap
  {
    && u.next == s.next
    && (forall p :: p in u.sessions <==> p in s.sessions && p != s.heap[sid].aId && p != s.heap[sid].bId)
    && (forall p | p in u.sessions :: u.sessions[p] == s.sessions[p])
    && (forall i :: i in u.heap <==> i in s.heap && i != sid)
    && (forall i | i in u.heap :: u.heap[i] == s.heap[i])
  }

  /** Only the one session has changed, into `r`. */
  ghost predicate Became(s: State, u: State, sid: int, r: Session) {
    && u.next == s.next && u.sessions == s.sessions && sid in s.heap
    && (forall i :: i in u.heap <==> i in s.heap)
    && (forall i | i in u.heap :: u.heap[i] == if i == sid then r else s.heap[i])
  }

  /** Two players get one new, empty session exactly when they are two and both free. */
  lemma CreateEffect(s: State, a: int, b: int)
    requires Paired(s)
    ensures var (u, ok) := Create(s, a, b);
            && (ok <==> a != b && a !in s.sessions && b !in s.sessions)
            && (!ok ==> u == s)
            && (ok ==>
                  exists sid :: && sid !in s.heap && sid in u.heap
                                && u.heap[sid] == Session(a, b, false, false, false, [], [])
                                && (forall i :: i in u.heap <==> i in s.heap || i == sid)
                                && (forall i | i in s.heap :: u.heap[i] == s.heap[i])
                                && (forall p :: p in u.sessions <==> p in s.sessions || p == a || p == b)
                                && (forall p | p in u.sessions ::
                                      u.sessions[p] == if p == a || p == b then sid else s.sessions[p]))
  {
    var u := Create(s, a, b).0;
    if Create(s, a, b).1 {
      assert s.next !in s.heap && s.next in u.heap;
    }
  }

  /** An accepted upload appends exactly the offer, with the server's own type, to the uploader's own
      list; a refused one changes nothing. */
  lemma UploadEffect(s: State, catalog: Items.Catalog, inv: Items.Bags, player: int, up: Upload)
    requires Paired(s)
    ensures var u := UploadItem(s, catalog, inv, player, up);
            if !UploadAccepted(s, catalog, inv, player, up) then u == s
            else
              && player in s.sessions && up.id.Some? && up.id.value in catalog
              && var sid := s.sessions[player];
                 var r := s.heap[sid];
                 var o := Offer(up.id.value, catalog[up.id.value].inventoryType, up.amount, up.slot);
                 Became(s, u, sid,
                        if r.aId == player then r.(aItems := r.aItems + [o]) else r.(bItems := r.bItems + [o]))
  {
  }

  /** With one of the players in an open session, an upload is accepted exactly when the item is
      real, its slot holds nothing else that is offered, and the whole list stays covered. */
  lemma UploadAcceptedIff(s: State, catalog: Items.Catalog, inv: Items.Bags, player: int, up: Upload)
    requires Paired(s) && player in s.sessions
    requires var r := s.heap[s.sessions[player]]; var mine := if r.aId == player then r.aItems else r.bItems;
             Stored(catalog, mine) && Valid(catalog, inv, mine)
    ensures var r := s.heap[s.sessions[player]]; var mine := if r.aId == player then r.aItems else r.bItems;
            UploadAccepted(s, catalog, inv, player, up) <==>
              && !r.aReady && !r.bReady && !r.executing
              && up.id.Some? && up.id.value in catalog
              && (forall o | o in mine && o.slot == up.slot :: o.itemId == up.id.value)
              && var o := Offer(up.id.value, catalog[up.id.value].inventoryType, up.amount, up.slot);
                 Valid(catalog, inv, mine + [o])
  {
    var r := s.heap[s.sessions[player]];
    var mine := if r.aId == player then r.aItems else r.bItems;
    if up.id.Some? && up.id.value in catalog && forall o | o in mine && o.slot == up.slot :: o.itemId == up.id.value {
      CanAddIff(catalog, inv, mine, up);
    }
  }

  lemma CanAddIff(catalog: Items.Catalog, inv: Items.Bags, items: seq<Offer>, u: Upload)
    requires Stored(catalog, items) && Valid(catalog, inv, items)
    requires u.id.Some? && u.id.value in catalog
    requires forall o | o in items && o.slot == u.slot :: o.itemId == u.id.value
    ensures var o := Offer(u.id.value, catalog[u.id.value].inventoryType, u.amount, u.slot);
            CanAdd(catalog, inv, items, u) <==> Valid(catalog, inv, items + [o])
  {
    var o := Offer(u.id.value, catalog[u.id.value].inventoryType, u.amount, u.slot);
    assert o in items + [o];
    if WellFormedOffer(o) {
      if CanAdd(catalog, inv, items, u) { UploadKeepsValid(catalog, inv, items, u); }
      WellTypedRetypes(catalog, items + [o]);
      SlotTotalIsSum(items, u.slot, o.itemId, o.inventoryType);
      SumOfAppend(items, o, KeyOf(o));
    }
  }

  lemma MarkEffect(s: State, player: int)
    requires Paired(s) && player in s.sessions && !s.heap[s.sessions[player]].executing
    ensures var sid := s.sessions[player]; var r := s.heap[sid];
            MayMark(s, player) == Some(sid)
            && Became(s, Mark(s, player), sid, if r.aId == player then r.(aReady := true) else r.(bReady := true))
  {
  }

  lemma LaunchEffect(s: State, u: State, sid: int, r: Session, ok: bool)
    requires Became(s, u, sid, r) && r.aId == s.heap[sid].aId && r.bId == s.heap[sid].bId
    ensures ok ==> Became(s, Launch(u, sid, ok).0, sid, r.(executing := true))
                   && Launch(u, sid, ok).1 == Started(Execution(sid, r.aId, r.bId, r.aItems, r.bItems))
    ensures !ok ==> Gone(s, Launch(u, sid, ok).0, sid) && Launch(u, sid, ok).1 == Refused
  {
  }

  /** Ready sets the caller's flag and no other. Alone it waits; as the second it starts the
      transaction between the two players on their own lists, or, if either inventory no longer backs
      them, ends the session for both. */
  lemma ReadyEffect(s: State, catalog: Items.Catalog, invA: Items.Bags, invB: Items.Bags, player: int)
    requires Paired(s)
    ensures var (u, reply) := Ready(s, catalog, invA, invB, player);
            if player !in s.sessions || s.heap[s.sessions[player]].executing then u == s && reply == Refused
            else
              var sid := s.sessions[player];
              var r := s.heap[sid];
              var other := if r.aId == player then r.bReady else r.aReady;
              if !other then
                reply == Waiting
                && Became(s, u, sid, if r.aId == player then r.(aReady := true) else r.(bReady := true))
              else if Valid(catalog, invA, r.aItems) && Valid(catalog, invB, r.bItems) then
                reply == Started(Execution(sid, r.aId, r.bId, r.aItems, r.bItems))
                && Became(s, u, sid, r.(aReady := true, bReady := true, executing := true))
              else reply == Refused && Gone(s, u, sid)
  {
    if player in s.sessions && !s.heap[s.sessions[player]].executing {
      var sid := s.sessions[player];
      var r := s.heap[sid];
      var marked := if r.aId == player then r.(aReady := true) else r.(bReady := true);
      MarkEffect(s, player);
      LaunchEffect(s, Mark(s, player), sid, marked, BothHold(catalog, invA, invB, marked));
    }
  }

  /** Cancelling succeeds exactly outside an execution, and then ends the session for both. */
  lemma CancelEffect(s: State, player: int)
    requires Paired(s)
    ensures var (u, ok) := Cancel(s, player);
            && (ok <==> player in s.sessions && !s.heap[s.sessions[player]].executing)
            && (if ok then Gone(s, u, s.sessions[player]) else u == s)
  {
  }

  /** So does a failed transaction, and the clean-up after a committed one. */
  lemma FinishEffect(s: State, player: int, sid: int)
    requires Paired(s)
    ensures if player in s.sessions && s.sessions[player] == sid then Gone(s, ReadyFailed(s, player, sid), sid)
            else ReadyFailed(s, player, sid) == s
    ensures if player in s.sessions then Gone(s, Delete(s, player), s.sessions[player]) else Delete(s, player) == s
  {
  }

  // ---------------------------------------------------------------- who said ready

  lemma {:induction false} ReplayLast(catalog: Items.Catalog, t: Trace, es: seq<Event>, e: Event)
    ensures Replay(catalog, t, es + [e]) == Apply(catalog, Replay(catalog, t, es), e)
    decreases |es|
  {
    if es == [] {
      assert es + [e] == [e] && [e][1..] == [];
      assert Replay(catalog, Apply(catalog, t, e), []) == Apply(catalog, t, e);
    } else {
      assert (es + [e])[0] == es[0] && (es + [e])[1..] == es[1..] + [e];
      ReplayLast(catalog, Apply(catalog, t, es[0]), es[1..], e);
    }
  }

  /** The flags of `u` are those of `r`, save that `p` may have raised its own. */
  predicate RaisedBy(r: Session, u: Session, p: int) {
    && u.aId == r.aId && u.bId == r.bId
    && (u.aReady == r.aReady || (u.aReady && p == r.aId))
    && (u.bReady == r.bReady || (u.bReady && p == r.bId))
  }

  lemma ReadyRaisesOwn(catalog: Items.Catalog, s: State, invA: Items.Bags, invB: Items.Bags, p: int, sid: int)
    requires Paired(s) && sid in s.heap && sid in Ready(s, catalog, invA, invB, p).0.heap
    ensures RaisedBy(s.heap[sid], Ready(s, catalog, invA, invB, p).0.heap[sid], p)
  {
    ReadyEffect(s, catalog, invA, invB, p);
  }

  lemma OthersRaiseNothing(catalog: Items.Catalog, t: Trace, e: Event, sid: int)
    requires Paired(t.s) && sid in t.s.heap && sid in Apply(catalog, t, e).s.heap && !e.Readied?
    ensures var r, u := t.s.heap[sid], Apply(catalog, t, e).s.heap[sid];
            u.aId == r.aId && u.bId == r.bId && u.aReady == r.aReady && u.bReady == r.bReady
  {
  }

  /** A flag is raised only by a Ready of its own player, and never lowered. */
  lemma FlagsAreOwn(catalog: Items.Catalog, t: Trace, e: Event, sid: int)
    requires TradeRuns.Inv(catalog, t) && sid in t.s.heap && sid in Apply(catalog, t, e).s.heap
    ensures var r, u := t.s.heap[sid], Apply(catalog, t, e).s.heap[sid];
            && u.aId == r.aId && u.bId == r.bId
            && (r.aReady ==> u.aReady) && (r.bReady ==> u.bReady)
            && (u.aReady && !r.aReady ==> e.Readied? && e.player == r.aId)
            && (u.bReady && !r.bReady ==> e.Readied? && e.player == r.bId)
  {
    if e.Readied? {
      ReadyRaisesOwn(catalog, t.s, e.invA, e.invB, e.player, sid);
    } else {
      OthersRaiseNothing(catalog, t, e, sid);
    }
  }

  /** A session starts without flags. */
  lemma NewSessionIsBlank(catalog: Items.Catalog, t: Trace, e: Event, sid: int)
    requires TradeRuns.Inv(catalog, t) && sid !in t.s.heap && sid in Apply(catalog, t, e).s.heap
    ensures !Apply(catalog, t, e).s.heap[sid].aReady && !Apply(catalog, t, e).s.heap[sid].bReady
  {
  }

  /** At some point of the run the player said ready, in this very session. */
  ghost predicate SaidReady(catalog: Items.Catalog, es: seq<Event>, sid: int, p: int) {
    exists k :: 0 <= k < |es| && SaidReadyAt(catalog, es, sid, p, k)
  }

  ghost predicate SaidReadyAt(catalog: Items.Catalog, es: seq<Event>, sid: int, p: int, k: int)
    requires 0 <= k < |es|
  {
    es[k].Readied? && es[k].player == p && Find(Replay(catalog, START, es[..k]).s, p) == Some(sid)
  }

  lemma SaidReadyStays(catalog: Items.Catalog, es: seq<Event>, e: Event, sid: int, p: int)
    requires SaidReady(catalog, es, sid, p)
    ensures SaidReady(catalog, es + [e], sid, p)
  {
    var k :| 0 <= k < |es| && SaidReadyAt(catalog, es, sid, p, k);
    assert (es + [e])[k] == es[k] && (es + [e])[..k] == es[..k];
    assert SaidReadyAt(catalog, es + [e], sid, p, k);
  }

  lemma SaidReadyNow(catalog: Items.Catalog, es: seq<Event>, e: Event, sid: int, p: int)
    requires e.Readied? && e.player == p && Find(Replay(catalog, START, es).s, p) == Some(sid)
    ensures SaidReady(catalog, es + [e], sid, p)
  {
    assert (es + [e])[|es|] == e && (es + [e])[..|es|] == es;
    assert SaidReadyAt(catalog, es + [e], sid, p, |es|);
  }

  /** Every raised flag stands for a Ready of that player in that session. */
  lemma FlagWasSaid(catalog: Items.Catalog, es: seq<Event>, e: Event, sid: int, first: bool)
    requires var t := Replay(catalog, START, es);
             TradeRuns.Inv(catalog, t) && sid in Apply(catalog, t, e).s.heap
             && (sid in t.s.heap && Flag(t.s.heap[sid], first) ==>
                   SaidReady(catalog, es, sid, Side(t.s.heap[sid], first)))
             && Flag(Apply(catalog, t, e).s.heap[sid], first)
    ensures SaidReady(catalog, es + [e], sid, Side(Apply(catalog, Replay(catalog, START, es), e).s.heap[sid], first))
  {
    var t := Replay(catalog, START, es);
    if sid !in t.s.heap {
      NewSessionIsBlank(catalog, t, e, sid);
    } else {
      FlagsAreOwn(catalog, t, e, sid);
      var p := Side(t.s.heap[sid], first);
      if Flag(t.s.heap[sid], first) {
        SaidReadyStays(catalog, es, e, sid, p);
      } else {
        SaidReadyNow(catalog, es, e, sid, p);
      }
    }
  }

  function Flag(r: Session, first: bool): bool { if first then r.aReady else r.bReady }

  function Side(r: Session, first: bool): int { if first then r.aId else r.bId }

  ghost predicate AllSaid(catalog: Items.Catalog, es: seq<Event>) {
    var t := Replay(catalog, START, es);
    && (forall sid, first | sid in t.s.heap && Flag(t.s.heap[sid], first) ::
          SaidReady(catalog, es, sid, Side(t.s.heap[sid], first)))
    && (forall i | 0 <= i < |t.executed| ::
          SaidReady(catalog, es, t.executed[i].sid, t.executed[i].aId)
          && SaidReady(catalog, es, t.executed[i].sid, t.executed[i].bId))
  }

  /** What an event adds to the transactions begun: the session as it was, with both players ready. */
  lemma ExecutedGrows(catalog: Items.Catalog, t: Trace, e: Event)
    requires TradeRuns.Inv(catalog, t)
    ensures var u := Apply(catalog, t, e);
            u.executed == t.executed
            || exists sid :: && sid in u.s.heap && u.s.heap[sid].aReady && u.s.heap[sid].bReady
                             && u.executed == t.executed + [Execution(sid, u.s.heap[sid].aId, u.s.heap[sid].bId,
                                                                      u.s.heap[sid].aItems, u.s.heap[sid].bItems)]
  {
    if e.Readied? {
      ReadyEffect(t.s, catalog, e.invA, e.invB, e.player);
    }
  }

  lemma AllSaidGrows(catalog: Items.Catalog, es: seq<Event>, e: Event)
    requires AllSaid(catalog, es)
    ensures AllSaid(catalog, es + [e])
  {
    var t := Replay(catalog, START, es);
    var u := Apply(catalog, t, e);
    ReachableIsSound(catalog, es);
    ReplayLast(catalog, START, es, e);
    forall sid, first | sid in u.s.heap && Flag(u.s.heap[sid], first)
      ensures SaidReady(catalog, es + [e], sid, Side(u.s.heap[sid], first))
    {
      FlagWasSaid(catalog, es, e, sid, first);
    }
    ExecutedGrows(catalog, t, e);
    forall i | 0 <= i < |u.executed|
      ensures SaidReady(catalog, es + [e], u.executed[i].sid, u.executed[i].aId)
              && SaidReady(catalog, es + [e], u.executed[i].sid, u.executed[i].bId)
    {
      if i < |t.executed| {
        assert u.executed[i] == t.executed[i];
        SaidReadyStays(catalog, es, e, t.executed[i].sid, t.executed[i].aId);
        SaidReadyStays(catalog, es, e, t.executed[i].sid, t.executed[i].bId);
      } else {
        var sid := u.executed[i].sid;
        assert Flag(u.s.heap[sid], true) && Flag(u.s.heap[sid], false);
        assert Side(u.s.heap[sid], true) == u.executed[i].aId && Side(u.s.heap[sid], false) == u.executed[i].bId;
      }
    }
  }

  lemma {:induction false} EveryFlagWasSaid(catalog: Items.Catalog, es: seq<Event>)
    ensures AllSaid(catalog, es)
    decreases |es|
  {
    if es != [] {
      var before := es[..|es| - 1];
      EveryFlagWasSaid(catalog, before);
      AllSaidGrows(catalog, before, es[|es| - 1]);
      assert before + [es[|es| - 1]] == es;
    }
  }

  /** Consent: every transaction that any run begins has been agreed to by both of its players, each
      of whom said ready in that very session. */
  lemma BothPlayersAgreed(catalog: Items.Catalog, es: seq<Event>, i: nat)
    requires i < |Replay(catalog, START, es).executed|
    ensures var x := Replay(catalog, START, es).executed[i];
            SaidReady(catalog, es, x.sid, x.aId) && SaidReady(catalog, es, x.sid, x.bId)
  {
    EveryFlagWasSaid(catalog, es);
  }
}
