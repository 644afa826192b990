/** Authentication and the player registry, over every run of the channel server. */
module ChannelAuth {
  import opened Common
  import opened ChannelSessions

  // ---------------------------------------------------------------- one authentication per session

  predicate Authenticates(j: Job) { !j.GameJob? }

  predicate Attaches(w: Work) { w.Attach? || w.Added? || w.PlayerSet? || w.Reset? }

  /** At most one authentication is outstanding per session id, as a job or as an attaching task. */
  ghost predicate OneOutstanding(s: State) {
    && (forall i | i in s.jobs :: s.jobs[i].id < s.nextId)
    && (forall i, j | i in s.jobs && j in s.jobs && Authenticates(s.jobs[i]) && Authenticates(s.jobs[j])
                      && s.jobs[i].id == s.jobs[j].id :: i == j)
    && (forall i, k | i in s.jobs && k in s.tasks && Authenticates(s.jobs[i]) && Attaches(s.tasks[k].work) ::
          s.jobs[i].id != s.tasks[k].id)
    && (forall k, l | k in s.tasks && l in s.tasks && Attaches(s.tasks[k].work) && Attaches(s.tasks[l].work)
                      && s.tasks[k].id == s.tasks[l].id :: k == l)
  }

  /** The session is Authenticating while one is outstanding, and gameplay exists only for sessions
      that are Authenticated, which is for good. */
  ghost predicate StateMatches(s: State) {
    && (forall i, p | i in s.jobs && p in s.heap && s.heap[p].id == s.jobs[i].id ::
          s.heap[p].auth == if Authenticates(s.jobs[i]) then Authenticating else Authenticated)
    && (forall k | k in s.tasks && s.tasks[k].ptr in s.heap ::
          && (Attaches(s.tasks[k].work) ==> s.heap[s.tasks[k].ptr].auth == Authenticating)
          && (s.tasks[k].work.Gameplay? ==> s.heap[s.tasks[k].ptr].auth == Authenticated))
  }

  ghost predicate Basics(s: State) { Indexed(s) && UniqueIds(s) && Counted(s) }

  ghost predicate AuthInv(s: State) { OneOutstanding(s) && StateMatches(s) }

  /** Losing tasks or sessions, or changing anything but ids and authentication, keeps it. */
  lemma LessKeepsAuth(s: State, u: State)
    requires AuthInv(s) && u.jobs == s.jobs && u.nextId == s.nextId
    requires forall k | k in u.tasks :: k in s.tasks && u.tasks[k] == s.tasks[k]
    requires forall p | p in u.heap :: p in s.heap && u.heap[p].id == s.heap[p].id && u.heap[p].auth == s.heap[p].auth
    ensures AuthInv(u)
  {
    assert OneOutstanding(u);
  }

  lemma AcceptKeepsAuth(s: State, fd: int, ptr: int)
    requires Basics(s) && AuthInv(s)
    ensures AuthInv(Accept(s, fd, ptr))
  {
  }

  lemma DispatchAuthKeepsAuth(s: State, fd: int, j: int)
    requires Basics(s) && AuthInv(s)
    ensures AuthInv(DispatchAuth(s, fd, j))
  {
  }

  lemma DispatchGameKeepsAuth(s: State, fd: int, j: int)
    requires Basics(s) && AuthInv(s)
    ensures AuthInv(DispatchGame(s, fd, j))
  {
    var u := DispatchGame(s, fd, j);
    if j in u.jobs && j !in s.jobs {
      var ptr := s.sessions[fd];
      assert u.jobs[j].GameJob? && u.jobs[j].id == s.heap[ptr].id < s.nextId;
    }
  }

  lemma AuthDoneKeepsAuth(s: State, j: int, p: Option<int>)
    requires Basics(s) && AuthInv(s)
    ensures AuthInv(AuthDone(s, j, p))
  {
  }

  lemma BeginOutstanding(s: State, j: int, tid: int)
    requires OneOutstanding(s)
    ensures OneOutstanding(BeginTask(s, j, tid))
  {
  }

  lemma BeginKeepsAuth(s: State, j: int, tid: int)
    requires Basics(s) && AuthInv(s)
    ensures AuthInv(BeginTask(s, j, tid))
  {
    BeginOutstanding(s, j, tid);
  }

  lemma AttachOutstanding(s: State, tid: int)
    requires OneOutstanding(s)
    ensures OneOutstanding(AttachStep(s, tid))
  {
    var u := AttachStep(s, tid);
    assert u.jobs == s.jobs && u.nextId == s.nextId && u.tasks.Keys == s.tasks.Keys;
    assert forall k | k in s.tasks ::
             u.tasks[k].id == s.tasks[k].id && (Attaches(u.tasks[k].work) ==> Attaches(s.tasks[k].work));
  }

  lemma AttachKeepsAuth(s: State, tid: int)
    requires Basics(s) && AuthInv(s)
    ensures AuthInv(AttachStep(s, tid))
  {
    AttachOutstanding(s, tid);
    AttachStates(s, tid);
  }

  lemma AttachStates(s: State, tid: int)
    requires Basics(s) && AuthInv(s)
    ensures StateMatches(AttachStep(s, tid))
  {
    var u := AttachStep(s, tid);
    if tid in s.tasks {
      var t := s.tasks[tid];
      assert u.heap[t.ptr].auth == s.heap[t.ptr].auth || Attaches(t.work);
    }
  }

  lemma EndKeepsAuth(s: State, tid: int)
    requires AuthInv(s)
    ensures AuthInv(EndTask(s, tid))
  {
    LessKeepsAuth(s, EndTask(s, tid));
  }

  lemma DisconnectKeepsAuth(s: State, fd: int)
    requires AuthInv(s)
    ensures AuthInv(StartDisconnect(s, fd))
  {
    StartDisconnectFrame(s, fd);
    LessKeepsAuth(s, StartDisconnect(s, fd));
  }

  lemma DisconnectingKeepsAuth(s: State, ptr: int)
    requires AuthInv(s)
    ensures AuthInv(Disconnecting(s, ptr))
  {
    DisconnectingFrame(s, ptr);
    LessKeepsAuth(s, Disconnecting(s, ptr));
  }

  lemma ApplyKeepsAuth(s: State, e: Event)
    requires Basics(s) && AuthInv(s)
    ensures AuthInv(Apply(s, e))
  {
    match e
    case EAccept(fd, ptr) => AcceptKeepsAuth(s, fd, ptr);
    case EDispatchAuth(fd, j) => DispatchAuthKeepsAuth(s, fd, j);
    case EDispatchGame(fd, j) => DispatchGameKeepsAuth(s, fd, j);
    case EAuthDone(j, p) => AuthDoneKeepsAuth(s, j, p);
    case EBegin(j, tid) => BeginKeepsAuth(s, j, tid);
    case EAttach(tid) => AttachKeepsAuth(s, tid);
    case EEnd(tid) => EndKeepsAuth(s, tid);
    case EDisconnect(fd) => DisconnectKeepsAuth(s, fd);
    case EDisconnecting(ptr) => DisconnectingKeepsAuth(s, ptr);
  }

  // ---------------------------------------------------------------- players and sessions

  ghost predicate BeingAdded(s: State, p: int, ptr: int) {
    exists k :: k in s.tasks && s.tasks[k].ptr == ptr && s.tasks[k].work == Added(p)
  }

  ghost predicate BeingMarked(s: State, ptr: int) {
    exists k :: k in s.tasks && s.tasks[k].ptr == ptr && s.tasks[k].work.PlayerSet?
  }

  /** Every registered player belongs to one existing session that has it or is about to get it. */
  ghost predicate OwnersExist(s: State) {
    forall p | p in s.registered ::
      s.registered[p] in s.heap && (s.heap[s.registered[p]].player == Some(p) || BeingAdded(s, p, s.registered[p]))
  }

  /** Every session's player is registered to it; having one goes with being authenticated. */
  ghost predicate PlayersMatch(s: State) {
    forall ptr | ptr in s.heap ::
      var r := s.heap[ptr];
      && (r.player.Some? ==> r.player.value in s.registered && s.registered[r.player.value] == ptr)
      && (r.stage == Finalized ==> r.player.None?)
      && (r.auth == Unauthenticated ==> r.player.None?)
      && (r.auth == Authenticated && r.stage != Finalized ==> r.player.Some?)
      && (r.auth == Authenticating && r.player.Some? ==> BeingMarked(s, ptr))
  }

  ghost predicate WorkMatches(s: State) {
    forall k | k in s.tasks && s.tasks[k].ptr in s.heap ::
      var t := s.tasks[k];
      && (t.work.Attach? || t.work.Reset? ==> s.heap[t.ptr].player.None?)
      && (t.work.Added? ==>
            t.work.player in s.registered && s.registered[t.work.player] == t.ptr && s.heap[t.ptr].player.None?)
      && (t.work.PlayerSet? ==> s.heap[t.ptr].player == Some(t.work.player))
  }

  ghost predicate PlayerInv(s: State) { OwnersExist(s) && PlayersMatch(s) && WorkMatches(s) }

  lemma StillAdded(s: State, u: State, tid: int, p: int, ptr: int)
    requires BeingAdded(s, p, ptr) && (tid in s.tasks ==> s.tasks[tid].work != Added(p))
    requires forall k | k in s.tasks && k != tid :: k in u.tasks && u.tasks[k] == s.tasks[k]
    ensures BeingAdded(u, p, ptr)
  {
    var k :| k in s.tasks && s.tasks[k].ptr == ptr && s.tasks[k].work == Added(p);
    assert u.tasks[k] == s.tasks[k];
  }

  lemma StillMarked(s: State, u: State, tid: int, ptr: int)
    requires BeingMarked(s, ptr) && (tid in s.tasks ==> s.tasks[tid].ptr != ptr || !s.tasks[tid].work.PlayerSet?)
    requires forall k | k in s.tasks && k != tid :: k in u.tasks && u.tasks[k] == s.tasks[k]
    ensures BeingMarked(u, ptr)
  {
    var k :| k in s.tasks && s.tasks[k].ptr == ptr && s.tasks[k].work.PlayerSet?;
    assert u.tasks[k] == s.tasks[k];
  }

  lemma AttachOwners(s: State, tid: int)
    requires AuthInv(s) && PlayerInv(s)
    ensures OwnersExist(AttachStep(s, tid))
  {
    var u := AttachStep(s, tid);
    if u != s {
      var t := s.tasks[tid];
      forall p | p in u.registered
        ensures u.registered[p] in u.heap
        ensures u.heap[u.registered[p]].player == Some(p) || BeingAdded(u, p, u.registered[p])
      {
        if t.work == Attach(p) && p !in s.registered {
          assert u.tasks[tid].ptr == u.registered[p] && u.tasks[tid].work == Added(p);
        } else if t.work != Added(p) && s.heap[s.registered[p]].player != Some(p) {
          StillAdded(s, u, tid, p, s.registered[p]);
        }
      }
    }
  }

  lemma AttachMatches(s: State, tid: int)
    requires Basics(s) && AuthInv(s) && PlayerInv(s)
    ensures PlayersMatch(AttachStep(s, tid))
  {
    var u := AttachStep(s, tid);
    if u != s {
      var t := s.tasks[tid];
      HolderCounts(s.tasks, t.ptr, tid);
      forall ptr | ptr in u.heap && u.heap[ptr].auth == Authenticating && u.heap[ptr].player.Some?
        ensures BeingMarked(u, ptr)
      {
        if ptr == t.ptr && t.work.Added? {
          assert u.tasks[tid].work.PlayerSet?;
        } else {
          StillMarked(s, u, tid, ptr);
        }
      }
    }
  }

  lemma AttachWork(s: State, tid: int)
    requires Basics(s) && AuthInv(s) && PlayerInv(s)
    ensures WorkMatches(AttachStep(s, tid))
  {
  }

  /** A task that begins leaves sessions, players and registry alone; an attaching one starts from
      a session without a player. */
  lemma BegunPlayers(s: State, u: State, tid: int)
    requires PlayerInv(s) && tid !in s.tasks && tid in u.tasks && u.tasks == s.tasks[tid := u.tasks[tid]]
    requires u.registered == s.registered && u.heap.Keys == s.heap.Keys
    requires forall p | p in s.heap :: u.heap[p] == s.heap[p].(inFlight := u.heap[p].inFlight)
    requires var t := u.tasks[tid];
             t.ptr in s.heap && (t.work.Gameplay? || ((t.work.Reset? || t.work.Attach?) && s.heap[t.ptr].player.None?))
    ensures PlayerInv(u)
  {
    forall p | p in s.registered && BeingAdded(s, p, s.registered[p]) ensures BeingAdded(u, p, s.registered[p]) {
      StillAdded(s, u, tid, p, s.registered[p]);
    }
    forall ptr | BeingMarked(s, ptr) ensures BeingMarked(u, ptr) { StillMarked(s, u, tid, ptr); }
  }

  lemma BeginPlayers(s: State, j: int, tid: int)
    requires Basics(s) && AuthInv(s) && PlayerInv(s)
    ensures PlayerInv(BeginTask(s, j, tid))
  {
    var u := BeginTask(s, j, tid);
    if tid in u.tasks && tid !in s.tasks {
      if !u.tasks[tid].work.Gameplay? { NotYetPlayer(s, j, u.tasks[tid].ptr); }
      BegunPlayers(s, u, tid);
    } else {
      SameWorkPlayers(s, u);
    }
  }

  /** A session whose authentication result is still queued has no player. */
  lemma NotYetPlayer(s: State, j: int, ptr: int)
    requires Basics(s) && AuthInv(s) && PlayerInv(s)
    requires j in s.jobs && Authenticates(s.jobs[j]) && ptr in s.heap && s.heap[ptr].id == s.jobs[j].id
    ensures s.heap[ptr].player.None?
  {
  }

  lemma EndPlayers(s: State, tid: int)
    requires PlayerInv(s)
    ensures PlayerInv(EndTask(s, tid))
  {
    var u := EndTask(s, tid);
    if tid in s.tasks && tid !in u.tasks {
      forall p | p in s.registered && BeingAdded(s, p, s.registered[p]) ensures BeingAdded(u, p, s.registered[p]) {
        StillAdded(s, u, tid, p, s.registered[p]);
      }
      forall ptr | BeingMarked(s, ptr) ensures BeingMarked(u, ptr) { StillMarked(s, u, tid, ptr); }
    }
  }

  /** Nothing is being attached to a session that has been waited for. */
  lemma DrainedHasNoWork(s: State, ptr: int)
    requires Basics(s) && ptr in s.heap && Drained(s.heap[ptr])
    ensures forall k | k in s.tasks :: s.tasks[k].ptr != ptr
  {
    forall k | k in s.tasks ensures s.tasks[k].ptr != ptr {
      if s.tasks[k].ptr == ptr { HolderCounts(s.tasks, ptr, k); }
    }
  }

  /** Changing neither tasks nor registry, nor any player or authentication of a session that has
      not been finalized, keeps it. */
  lemma SameWorkPlayers(s: State, u: State)
    requires PlayerInv(s) && u.tasks == s.tasks && u.registered == s.registered
    requires forall p | p in s.registered :: s.registered[p] in u.heap
    requires forall p | p in s.heap && p in u.heap ::
               u.heap[p].player == s.heap[p].player && (u.heap[p].stage == Finalized <==> s.heap[p].stage == Finalized)
               && (u.heap[p].auth == s.heap[p].auth
                  || (s.heap[p].auth == Unauthenticated && u.heap[p].auth == Authenticating))
    requires forall p | p in u.heap && p !in s.heap :: u.heap[p].player.None? && u.heap[p].auth == Unauthenticated
                                                        && forall k | k in s.tasks :: s.tasks[k].ptr != p
    ensures PlayerInv(u)
  {
    assert forall p, q :: BeingAdded(u, p, q) <==> BeingAdded(s, p, q);
    assert forall q :: BeingMarked(u, q) <==> BeingMarked(s, q);
  }

  /** FinalizePlayer: the session's player leaves both the session and the registry. */
  lemma FinalizePlayers(s: State, ptr: int)
    requires Basics(s) && PlayerInv(s) && ptr in s.heap && s.heap[ptr].stage == Idle
    ensures PlayerInv(Disconnecting(s, ptr))
  {
    var u := Disconnecting(s, ptr);
    DrainedHasNoWork(s, ptr);
    assert forall p, q :: BeingAdded(u, p, q) <==> BeingAdded(s, p, q);
    assert forall q :: BeingMarked(u, q) <==> BeingMarked(s, q);
    assert forall p | p in s.registered && s.registered[p] == ptr :: s.heap[ptr].player == Some(p);
  }

  lemma DisconnectingPlayers(s: State, ptr: int)
    requires Basics(s) && PlayerInv(s)
    ensures PlayerInv(Disconnecting(s, ptr))
  {
    if ptr in s.heap && s.heap[ptr].stage == Idle {
      FinalizePlayers(s, ptr);
    } else {
      if ptr in s.heap && s.heap[ptr].stage == Finalized {
        DrainedHasNoWork(s, ptr);
        assert forall p | p in s.registered :: s.registered[p] != ptr;
      }
      SameWorkPlayers(s, Disconnecting(s, ptr));
    }
  }

  lemma QuietPlayers(s: State, e: Event)
    requires Basics(s) && PlayerInv(s)
    requires e.EAccept? || e.EDispatchAuth? || e.EDispatchGame? || e.EAuthDone? || e.EDisconnect?
    ensures PlayerInv(Apply(s, e))
  {
    SameWorkPlayers(s, Apply(s, e));
  }

  ghost predicate Inv(s: State) { Basics(s) && AuthInv(s) && PlayerInv(s) }

  lemma ApplyKeeps(s: State, e: Event)
    requires Inv(s)
    ensures Inv(Apply(s, e))
  {
    ApplyKeepsIndexed(s, e);
    ApplyKeepsUniqueIds(s, e);
    ApplyKeepsCounted(s, e);
    ApplyKeepsAuth(s, e);
    ApplyKeepsPlayers(s, e);
  }

  lemma ApplyKeepsPlayers(s: State, e: Event)
    requires Basics(s) && AuthInv(s) && PlayerInv(s)
    ensures PlayerInv(Apply(s, e))
  {
    match e
    case EBegin(j, tid) => BeginPlayers(s, j, tid);
    case EAttach(tid) => AttachOwners(s, tid); AttachMatches(s, tid); AttachWork(s, tid);
    case EEnd(tid) => EndPlayers(s, tid);
    case EDisconnecting(ptr) => DisconnectingPlayers(s, ptr);
    case _ => QuietPlayers(s, e);
  }

  lemma {:induction false} EveryRunKeeps(s: State, es: seq<Event>)
    requires Inv(s)
    ensures Inv(Run(s, es))
    decreases |es|
  {
    if es != [] {
      ApplyKeeps(s, es[0]);
      EveryRunKeeps(Apply(s, es[0]), es[1..]);
    }
  }

  // ---------------------------------------------------------------- what this means

  /** In every reachable state: a running task holds an existing session, the very one it was
      issued for, and the session can be neither finalized nor freed under it; gameplay runs only
      for an authenticated session with a registered player of its own. */
  lemma TasksAreSafe(es: seq<Event>, tid: int)
    requires tid in Run(START, es).tasks
    ensures var s := Run(START, es); var t := s.tasks[tid];
            && t.ptr in s.heap && s.heap[t.ptr].id == t.id && !Drained(s.heap[t.ptr])
            && (t.work.Gameplay? ==> s.heap[t.ptr].auth == Authenticated && s.heap[t.ptr].player.Some?
                                     && s.heap[t.ptr].player.value in s.registered
                                     && s.registered[s.heap[t.ptr].player.value] == t.ptr)
  {
    EveryRunKeeps(START, es);
    var s := Run(START, es);
    var t := s.tasks[tid];
    HolderCounts(s.tasks, t.ptr, tid);
  }

  // ---------------------------------------------------------------- after closing

  /** The session of this id has begun to close, or is gone. */
  ghost predicate Over(s: State, id: int) {
    id < s.nextId && forall p | p in s.heap && s.heap[p].id == id :: s.heap[p].stage != Live
  }

  /** Every task for the id in `u` was already running in `s`, on the same session. */
  ghost predicate NoNewTask(s: State, u: State, id: int) {
    forall tid | tid in u.tasks && u.tasks[tid].id == id ::
      tid in s.tasks && s.tasks[tid].id == id && s.tasks[tid].ptr == u.tasks[tid].ptr
  }

  /** Disconnecting a socket is the end of the id that was under it. */
  lemma DisconnectIsOver(s: State, fd: int)
    requires UniqueIds(s) && fd in s.sessions && s.sessions[fd] in s.heap
    ensures Over(StartDisconnect(s, fd), s.heap[s.sessions[fd]].id)
  {
  }

  lemma BeginKeepsOver(s: State, j: int, tid: int, id: int)
    requires Over(s, id)
    ensures Over(BeginTask(s, j, tid), id) && NoNewTask(s, BeginTask(s, j, tid), id)
  {
  }

  lemma AttachKeepsOver(s: State, tid: int, id: int)
    requires Over(s, id)
    ensures Over(AttachStep(s, tid), id) && NoNewTask(s, AttachStep(s, tid), id)
  {
    AttachFrame(s, tid);
  }

  lemma DisconnectingKeepsOver(s: State, ptr: int, id: int)
    requires Over(s, id)
    ensures Over(Disconnecting(s, ptr), id) && NoNewTask(s, Disconnecting(s, ptr), id)
  {
    DisconnectingFrame(s, ptr);
  }

  lemma ApplyKeepsOver(s: State, e: Event, id: int)
    requires Over(s, id)
    ensures Over(Apply(s, e), id) && NoNewTask(s, Apply(s, e), id)
  {
    match e
    case EBegin(j, tid) => BeginKeepsOver(s, j, tid, id);
    case EAttach(tid) => AttachKeepsOver(s, tid, id);
    case EDisconnecting(ptr) => DisconnectingKeepsOver(s, ptr, id);
    case _ =>
  }

  /** Over stays over: whatever sockets and addresses are reused, no task for the id starts again. */
  lemma {:induction false} OverStays(s: State, es: seq<Event>, id: int)
    requires Over(s, id)
    ensures Over(Run(s, es), id) && NoNewTask(s, Run(s, es), id)
    decreases |es|
  {
    if es != [] {
      ApplyKeepsOver(s, es[0], id);
      OverStays(Apply(s, es[0]), es[1..], id);
    }
  }

  lemma {:induction false} RunSplits(s: State, before: seq<Event>, after: seq<Event>)
    ensures Run(s, before + after) == Run(Run(s, before), after)
    decreases |before|
  {
    if before == [] {
      assert before + after == after;
    } else {
      assert (before + after)[1..] == before[1..] + after;
      RunSplits(Apply(s, before[0]), before[1..], after);
    }
  }

  lemma RunThroughDisconnect(s: State, before: seq<Event>, fd: int, after: seq<Event>)
    ensures Run(s, before + [EDisconnect(fd)] + after) == Run(StartDisconnect(Run(s, before), fd), after)
  {
    RunSplits(s, before + [EDisconnect(fd)], after);
    RunSplits(s, before, [EDisconnect(fd)]);
    OneEvent(Run(s, before), EDisconnect(fd));
  }

  lemma OneEvent(s: State, e: Event)
    ensures Run(s, [e]) == Apply(s, e)
  {
    assert [e][1..] == [];
  }

  lemma ClosingEndsTheId(s: State, fd: int, after: seq<Event>, tid: int)
    requires Indexed(s) && UniqueIds(s) && Counted(s) && fd in s.sessions
    requires var u := Run(StartDisconnect(s, fd), after);
             tid in u.tasks && u.tasks[tid].id == s.heap[s.sessions[fd]].id
    ensures tid in s.tasks && s.tasks[tid].ptr == s.sessions[fd]
  {
    DisconnectIsOver(s, fd);
    OverStays(StartDisconnect(s, fd), after, s.heap[s.sessions[fd]].id);
  }

  /** Once a socket is being disconnected, no continuation of the run ever starts a task for the
      session that was under it: those that still run were running before. */
  lemma NoTaskAfterClosing(before: seq<Event>, fd: int, after: seq<Event>, tid: int)
    requires fd in Run(START, before).sessions
    ensures var s := Run(START, before);
            var u := Run(START, before + [EDisconnect(fd)] + after);
            s.sessions[fd] in s.heap
            && (tid in u.tasks && u.tasks[tid].id == s.heap[s.sessions[fd]].id ==>
                  tid in s.tasks && s.tasks[tid].ptr == s.sessions[fd])
  {
    var s := Run(START, before);
    EveryRunKeeps(START, before);
    RunThroughDisconnect(START, before, fd, after);
    var u := Run(StartDisconnect(s, fd), after);
    if tid in u.tasks && u.tasks[tid].id == s.heap[s.sessions[fd]].id {
      ClosingEndsTheId(s, fd, after, tid);
    }
  }

  /** A task changes no session but the one whose id it was issued for, so an authentication result
      reaches no other session, on a reused socket or at a reused address. */
  lemma TaskChangesOnlyItsSession(es: seq<Event>, e: Event, tid: int, ptr: int)
    requires tid in Run(START, es).tasks && (e == EAttach(tid) || e == EEnd(tid))
    requires ptr in Run(START, es).heap && ptr in Apply(Run(START, es), e).heap
    ensures var s := Run(START, es);
            Apply(s, e).heap[ptr] != s.heap[ptr] ==> s.heap[ptr].id == s.tasks[tid].id
  {
    TasksAreSafe(es, tid);
  }

  ghost predicate NothingAttaching(s: State) { forall k | k in s.tasks :: !Attaches(s.tasks[k].work) }

  /** Registered players and authenticated sessions not yet finalized, matched both ways. */
  ghost predicate Correspond(s: State) {
    && (forall p | p in s.registered :: s.registered[p] in s.heap && s.heap[s.registered[p]].player == Some(p)
                                        && s.heap[s.registered[p]].auth == Authenticated
                                        && s.heap[s.registered[p]].stage != Finalized)
    && (forall ptr | ptr in s.heap && s.heap[ptr].auth == Authenticated && s.heap[ptr].stage != Finalized ::
          s.heap[ptr].player.Some? && s.heap[ptr].player.value in s.registered
          && s.registered[s.heap[ptr].player.value] == ptr)
  }

  lemma QuietCorrespond(s: State)
    requires PlayerInv(s) && NothingAttaching(s)
    ensures Correspond(s)
  {
    forall p | p in s.registered
      ensures var ptr := s.registered[p];
              ptr in s.heap && s.heap[ptr].player == Some(p) && s.heap[ptr].auth == Authenticated
                  && s.heap[ptr].stage != Finalized
    {
      var ptr := s.registered[p];
      assert !BeingAdded(s, p, ptr) && !BeingMarked(s, ptr);
    }
  }

  /** Whenever no attach is half-way, authenticated sessions and players correspond one to one. */
  lemma PlayersAndSessionsCorrespond(es: seq<Event>)
    requires NothingAttaching(Run(START, es))
    ensures Correspond(Run(START, es))
  {
    EveryRunKeeps(START, es);
    QuietCorrespond(Run(START, es));
  }
}
