/** What each section of the channel server does, and where the player of a session comes from. */
module ChannelSteps {
  import opened Common
  import opened ChannelSessions
  import opened ChannelAuth

  /** Everything but the session at `ptr` is as before; that one became `r`. */
  ghost predicate OnlySession(s: State, u: State, ptr: int, r: Session) {
    && ptr in s.heap && u.heap == s.heap[ptr := r] && u.sessions == s.sessions && u.openFds == s.openFds
    && u.nextId == s.nextId
  }

  // ---------------------------------------------------------------- each section

  /** A connection on a free socket is a live session of its own, under the next id. */
  lemma AcceptEffect(s: State, fd: int, ptr: int)
    requires fd !in s.openFds && ptr !in s.heap
    ensures var u := Accept(s, fd, ptr);
            && u.sessions == s.sessions[fd := ptr]
            && u.heap == s.heap[ptr := Session(s.nextId, fd, Live, 0, Unauthenticated, None)]
            && u.openFds == s.openFds + {fd} && u.nextId == s.nextId + 1
            && u.tasks == s.tasks && u.jobs == s.jobs && u.registered == s.registered
  {
  }

  /** An authentication packet starts one authentication of its own session, exactly when none is
      under way or done; any other packet is queued for its own session exactly when it is
      authenticated. */
  lemma DispatchEffect(s: State, fd: int, j: int)
    requires Indexed(s) && fd in s.sessions && j !in s.jobs
    ensures var ptr := s.sessions[fd]; var r := s.heap[ptr]; var u := DispatchAuth(s, fd, j);
            if r.auth == Unauthenticated then
              OnlySession(s, u, ptr, r.(auth := Authenticating)) && u.jobs == s.jobs[j := AuthJob(fd, r.id)]
              && u.tasks == s.tasks && u.registered == s.registered
            else u == s
    ensures var ptr := s.sessions[fd]; var r := s.heap[ptr]; var u := DispatchGame(s, fd, j);
            u == if r.auth == Authenticated then s.(jobs := s.jobs[j := GameJob(fd, r.id)]) else s
  {
  }

  /** The answer of an authentication carries the player it found, for the session it was asked for. */
  lemma AnswerEffect(s: State, j: int, player: Option<int>)
    requires j in s.jobs && s.jobs[j].AuthJob?
    ensures AuthDone(s, j, player) == s.(jobs := s.jobs[j := AuthResult(s.jobs[j].fd, s.jobs[j].id, player)])
  {
  }

  /** What a queued job asks of the session it is for. */
  function Asked(j: Job): Work
    requires !j.AuthJob?
  {
    match j
    case GameJob(_, _) => Gameplay
    case AuthResult(_, _, None) => Reset
    case AuthResult(_, _, Some(p)) => Attach(p)
  }

  /** A job is taken off its queue; it becomes a task exactly when the live session on its socket is
      the one it is for, and then does what was asked, the player being the one in the result. */
  lemma TakeEffect(s: State, j: int, tid: int)
    requires Indexed(s) && j in s.jobs && !s.jobs[j].AuthJob? && tid !in s.tasks
    ensures var job := s.jobs[j]; var u := BeginTask(s, j, tid);
            && u.jobs == s.jobs - {j} && u.registered == s.registered
            && if job.fd in s.sessions && s.heap[s.sessions[job.fd]].id == job.id then
                 var ptr := s.sessions[job.fd]; var r := s.heap[ptr];
                 OnlySession(s, u, ptr, r.(inFlight := r.inFlight + 1))
                 && u.tasks == s.tasks[tid := Task(ptr, job.id, Asked(job))]
               else u.tasks == s.tasks && u.heap == s.heap && u.sessions == s.sessions && u.openFds == s.openFds
                    && u.nextId == s.nextId
  {
  }

  /** Ending a task counts it out and touches nothing else. */
  lemma EndEffect(s: State, tid: int)
    requires Counted(s) && tid in s.tasks && (s.tasks[tid].work == Gameplay || s.tasks[tid].work == Finished)
    ensures var ptr := s.tasks[tid].ptr; var r := s.heap[ptr]; var u := EndTask(s, tid);
            && r.inFlight > 0 && OnlySession(s, u, ptr, r.(inFlight := r.inFlight - 1))
            && u.tasks == s.tasks - {tid} && u.jobs == s.jobs && u.registered == s.registered
  {
    HolderCounts(s.tasks, s.tasks[tid].ptr, tid);
  }

  /** The player of a result is registered, given to the session and the session marked, in three
      steps; one who is registered already sends the session back to unauthenticated in two. */
  lemma AttachEffect(s: State, tid: int, p: int)
    requires tid in s.tasks && s.tasks[tid].ptr in s.heap && s.tasks[tid].work == Attach(p)
    ensures var t := s.tasks[tid]; var r := s.heap[t.ptr];
            var two := AttachStep(AttachStep(s, tid), tid);
            if p in s.registered then
              two == s.(heap := s.heap[t.ptr := r.(auth := Unauthenticated)],
                        tasks := s.tasks[tid := t.(work := Finished)])
            else
              AttachStep(two, tid)
              == s.(heap := s.heap[t.ptr := r.(player := Some(p), auth := Authenticated)],
                    tasks := s.tasks[tid := t.(work := Finished)],
                    registered := s.registered[p := t.ptr])
  {
    var t := s.tasks[tid];
    var r := s.heap[t.ptr];
    var one := AttachStep(s, tid);
    var two := AttachStep(one, tid);
    assert one.heap == s.heap;
    if p in s.registered {
      assert two.tasks == s.tasks[tid := t.(work := Finished)];
    } else {
      var three := AttachStep(two, tid);
      assert two.heap == s.heap[t.ptr := r.(player := Some(p))];
      assert three.heap == s.heap[t.ptr := r.(player := Some(p), auth := Authenticated)];
      assert three.tasks == s.tasks[tid := t.(work := Finished)];
    }
  }

  /** A disconnect takes the session off its socket; with no task left it goes all the way: the
      socket is free again, the player is no longer registered, the memory is freed. */
  lemma DisconnectEffect(s: State, fd: int)
    requires Indexed(s) && fd in s.sessions && s.heap[s.sessions[fd]].inFlight == 0
    ensures var ptr := s.sessions[fd]; var r := s.heap[ptr];
            var one := StartDisconnect(s, fd);
            var five := Disconnecting(Disconnecting(Disconnecting(Disconnecting(one, ptr), ptr), ptr), ptr);
            && one.sessions == s.sessions - {fd} && one.heap == s.heap[ptr := r.(stage := Closing)]
            && five == s.(sessions := s.sessions - {fd}, heap := s.heap - {ptr}, openFds := s.openFds - {fd},
                          registered := if r.player.Some? then s.registered - {r.player.value} else s.registered)
  {
    var ptr := s.sessions[fd];
    var r := s.heap[ptr];
    var one := StartDisconnect(s, fd);
    var two := Disconnecting(one, ptr);
    var three := Disconnecting(two, ptr);
    var four := Disconnecting(three, ptr);
    assert two.heap == s.heap[ptr := r.(stage := SocketClosed)];
    assert three.heap == s.heap[ptr := r.(stage := Idle)];
    assert four.heap == s.heap[ptr := r.(stage := Finalized, player := None)];
    assert Disconnecting(four, ptr).heap == s.heap - {ptr};
  }

  // ---------------------------------------------------------------- jobs find their session

  /** Every queued job for a session carries that session's own socket. */
  ghost predicate Addressed(s: State) {
    forall j, p | j in s.jobs && p in s.heap && s.heap[p].id == s.jobs[j].id :: s.jobs[j].fd == s.heap[p].fd
  }

  lemma SameJobsAddressed(s: State, u: State)
    requires Addressed(s)
    requires forall j | j in u.jobs :: j in s.jobs && u.jobs[j].id == s.jobs[j].id && u.jobs[j].fd == s.jobs[j].fd
    requires forall p | p in u.heap :: p in s.heap && u.heap[p].id == s.heap[p].id && u.heap[p].fd == s.heap[p].fd
    ensures Addressed(u)
  {
  }

  lemma NewJobAddressed(s: State, u: State, j: int, ptr: int)
    requires Basics(s) && Addressed(s) && ptr in s.heap
    requires j !in s.jobs && j in u.jobs && u.jobs == s.jobs[j := u.jobs[j]]
    requires u.jobs[j].id == s.heap[ptr].id && u.jobs[j].fd == s.heap[ptr].fd
    requires forall p | p in u.heap :: p in s.heap && u.heap[p].id == s.heap[p].id && u.heap[p].fd == s.heap[p].fd
    ensures Addressed(u)
  {
  }

  lemma DispatchAddressed(s: State, fd: int, j: int)
    requires Basics(s) && Addressed(s)
    ensures Addressed(DispatchAuth(s, fd, j)) && Addressed(DispatchGame(s, fd, j))
  {
    if fd in s.sessions && j !in s.jobs {
      DispatchEffect(s, fd, j);
      var ptr := s.sessions[fd];
      if s.heap[ptr].auth == Unauthenticated { NewJobAddressed(s, DispatchAuth(s, fd, j), j, ptr); }
      if s.heap[ptr].auth == Authenticated { NewJobAddressed(s, DispatchGame(s, fd, j), j, ptr); }
    }
  }

  lemma AcceptAddressed(s: State, fd: int, ptr: int)
    requires Inv(s) && Addressed(s)
    ensures Addressed(Accept(s, fd, ptr))
  {
  }

  lemma QuietAddressed(s: State, e: Event)
    requires Addressed(s) && (e.EAuthDone? || e.EBegin? || e.EAttach? || e.EEnd?)
    ensures Addressed(Apply(s, e))
  {
    QuietShape(s, e);
    SameJobsAddressed(s, Apply(s, e));
  }

  lemma ApplyKeepsAddressed(s: State, e: Event)
    requires Inv(s) && Addressed(s)
    ensures Addressed(Apply(s, e))
  {
    match e
    case EAccept(fd, ptr) => AcceptAddressed(s, fd, ptr);
    case EDispatchAuth(fd, j) => DispatchAddressed(s, fd, j);
    case EDispatchGame(fd, j) => DispatchAddressed(s, fd, j);
    case EDisconnect(fd) => StartDisconnectKeepsPlace(s, fd); SameJobsAddressed(s, StartDisconnect(s, fd));
    case EDisconnecting(ptr) => DisconnectingKeepsPlace(s, ptr); SameJobsAddressed(s, Disconnecting(s, ptr));
    case _ => QuietAddressed(s, e);
  }

  lemma StartDisconnectKeepsPlace(s: State, fd: int)
    ensures var u := StartDisconnect(s, fd);
            u.jobs == s.jobs
            && forall p | p in u.heap :: p in s.heap && u.heap[p].id == s.heap[p].id && u.heap[p].fd == s.heap[p].fd
  {
  }

  lemma DisconnectingKeepsPlace(s: State, ptr: int)
    ensures var u := Disconnecting(s, ptr);
            u.jobs == s.jobs
            && forall p | p in u.heap :: p in s.heap && u.heap[p].id == s.heap[p].id && u.heap[p].fd == s.heap[p].fd
  {
    if ptr in s.heap {
      match s.heap[ptr].stage
      case Live =>
      case Closing =>
      case SocketClosed =>
      case Idle =>
      case Finalized =>
    }
  }

  lemma {:induction false} EveryRunAddresses(s: State, es: seq<Event>)
    requires Inv(s) && Addressed(s)
    ensures Inv(Run(s, es)) && Addressed(Run(s, es))
    decreases |es|
  {
    if es != [] {
      ApplyKeeps(s, es[0]);
      ApplyKeepsAddressed(s, es[0]);
      EveryRunAddresses(Apply(s, es[0]), es[1..]);
    }
  }

  /** In every run a job is carried out exactly when its session is still live: none is lost to a
      session that is there, and none reaches one that is not. */
  lemma JobRunsIff(es: seq<Event>, j: int, tid: int)
    requires j in Run(START, es).jobs && !Run(START, es).jobs[j].AuthJob? && tid !in Run(START, es).tasks
    ensures var s := Run(START, es); var u := BeginTask(s, j, tid);
            && (tid in u.tasks <==> exists p :: p in s.heap && s.heap[p].id == s.jobs[j].id && s.heap[p].stage == Live)
            && (tid in u.tasks ==> u.tasks[tid].work == Asked(s.jobs[j]) && u.tasks[tid].id == s.jobs[j].id)
  {
    EveryRunAddresses(START, es);
    TakeEffect(Run(START, es), j, tid);
  }

  // ---------------------------------------------------------------- where players come from

  /** The event is an authentication of session `id` answering with player `p`. */
  predicate Answers(s: State, e: Event, id: int, p: int) {
    e.EAuthDone? && e.player == Some(p) && e.job in s.jobs && s.jobs[e.job].AuthJob? && s.jobs[e.job].id == id
  }

  /** Earlier in the run an authentication of this session answered with this player. */
  ghost predicate Answered(es: seq<Event>, id: int, p: int) {
    exists k :: 0 <= k < |es| && AnsweredAt(es, id, p, k)
  }

  ghost predicate AnsweredAt(es: seq<Event>, id: int, p: int, k: int)
    requires 0 <= k < |es|
  {
    Answers(Run(START, es[..k]), es[k], id, p)
  }

  lemma AnsweredStays(es: seq<Event>, e: Event, id: int, p: int)
    requires Answered(es, id, p)
    ensures Answered(es + [e], id, p)
  {
    var k :| 0 <= k < |es| && AnsweredAt(es, id, p, k);
    assert (es + [e])[k] == es[k] && (es + [e])[..k] == es[..k];
    assert AnsweredAt(es + [e], id, p, k);
  }

  lemma AnsweredNow(es: seq<Event>, e: Event, id: int, p: int)
    requires Answers(Run(START, es), e, id, p)
    ensures Answered(es + [e], id, p)
  {
    assert (es + [e])[|es|] == e && (es + [e])[..|es|] == es;
    assert AnsweredAt(es + [e], id, p, |es|);
  }

  predicate Names(w: Work, p: int) { (w.Attach? || w.Added? || w.PlayerSet?) && w.player == p }

  /** Whoever is in a result, being attached or attached has been answered for that session. */
  ghost predicate Sourced(s: State, came: iset<(int, int)>) {
    && (forall j | j in s.jobs && s.jobs[j].AuthResult? && s.jobs[j].player.Some? ::
          (s.jobs[j].id, s.jobs[j].player.value) in came)
    && (forall k, p | k in s.tasks && Names(s.tasks[k].work, p) :: (s.tasks[k].id, p) in came)
    && (forall ptr | ptr in s.heap && s.heap[ptr].player.Some? :: (s.heap[ptr].id, s.heap[ptr].player.value) in came)
  }

  /** One event adds to the sources only what it answers. */
  ghost function Sources(s: State, e: Event, came: iset<(int, int)>): iset<(int, int)> {
    came + iset id: int, p: int | Answers(s, e, id, p) :: (id, p)
  }

  lemma AcceptSourced(s: State, fd: int, ptr: int, came: iset<(int, int)>)
    requires Sourced(s, came)
    ensures Sourced(Accept(s, fd, ptr), came)
  {
  }

  lemma DispatchSourced(s: State, fd: int, j: int, came: iset<(int, int)>)
    requires Sourced(s, came)
    ensures Sourced(DispatchAuth(s, fd, j), came) && Sourced(DispatchGame(s, fd, j), came)
  {
  }

  lemma AnswerSourced(s: State, j: int, player: Option<int>, came: iset<(int, int)>)
    requires Sourced(s, came)
    ensures Sourced(AuthDone(s, j, player), Sources(s, EAuthDone(j, player), came))
  {
    if j in s.jobs && s.jobs[j].AuthJob? && player.Some? {
      assert Answers(s, EAuthDone(j, player), s.jobs[j].id, player.value);
    }
  }

  lemma TakeSourced(s: State, j: int, tid: int, came: iset<(int, int)>)
    requires Indexed(s) && Sourced(s, came)
    ensures Sourced(BeginTask(s, j, tid), came)
  {
    if j in s.jobs && !s.jobs[j].AuthJob? && tid !in s.tasks { TakeEffect(s, j, tid); }
  }

  lemma AttachSourced(s: State, tid: int, came: iset<(int, int)>)
    requires Counted(s) && Sourced(s, came)
    ensures Sourced(AttachStep(s, tid), came)
  {
    if tid in s.tasks {
      var t := s.tasks[tid];
      assert t.work.Added? ==> Names(t.work, t.work.player);
      assert t.work.Attach? ==> Names(t.work, t.work.player);
    }
  }

  lemma LeavingSourced(s: State, e: Event, came: iset<(int, int)>)
    requires Sourced(s, came) && (e.EEnd? || e.EDisconnect? || e.EDisconnecting?)
    ensures Sourced(Apply(s, e), came)
  {
  }

  lemma ApplySourced(s: State, e: Event, came: iset<(int, int)>)
    requires Inv(s) && Sourced(s, came)
    ensures Sourced(Apply(s, e), Sources(s, e, came))
  {
    match e
    case EAccept(fd, ptr) => AcceptSourced(s, fd, ptr, came);
    case EDispatchAuth(fd, j) => DispatchSourced(s, fd, j, came);
    case EDispatchGame(fd, j) => DispatchSourced(s, fd, j, came);
    case EAuthDone(j, player) => AnswerSourced(s, j, player, came);
    case EBegin(j, tid) => TakeSourced(s, j, tid, came);
    case EAttach(tid) => AttachSourced(s, tid, came);
    case _ => LeavingSourced(s, e, came);
  }

  ghost function AllAnswered(es: seq<Event>): iset<(int, int)> {
    iset id: int, p: int | Answered(es, id, p) :: (id, p)
  }

  lemma RunLast(s: State, es: seq<Event>, e: Event)
    ensures Run(s, es + [e]) == Apply(Run(s, es), e)
  {
    RunSplits(s, es, [e]);
    OneEvent(Run(s, es), e);
  }

  lemma SourcedGrows(s: State, came: iset<(int, int)>, more: iset<(int, int)>)
    requires Sourced(s, came) && came <= more
    ensures Sourced(s, more)
  {
  }

  lemma SourcesWereAnswered(before: seq<Event>, e: Event)
    ensures Sources(Run(START, before), e, AllAnswered(before)) <= AllAnswered(before + [e])
  {
    forall id, p | (id, p) in Sources(Run(START, before), e, AllAnswered(before))
      ensures Answered(before + [e], id, p)
    {
      if Answers(Run(START, before), e, id, p) {
        AnsweredNow(before, e, id, p);
      } else {
        AnsweredStays(before, e, id, p);
      }
    }
  }

  lemma OneMoreSourced(before: seq<Event>, e: Event)
    requires Sourced(Run(START, before), AllAnswered(before))
    ensures Sourced(Run(START, before + [e]), AllAnswered(before + [e]))
  {
    var s := Run(START, before);
    EveryRunKeeps(START, before);
    ApplySourced(s, e, AllAnswered(before));
    SourcesWereAnswered(before, e);
    RunLast(START, before, e);
    SourcedGrows(Apply(s, e), Sources(s, e, AllAnswered(before)), AllAnswered(before + [e]));
  }

  lemma {:induction false} EveryPlayerWasAnswered(es: seq<Event>)
    ensures Sourced(Run(START, es), AllAnswered(es))
    decreases |es|
  {
    if es != [] {
      var before := es[..|es| - 1];
      EveryPlayerWasAnswered(before);
      OneMoreSourced(before, es[|es| - 1]);
      assert before + [es[|es| - 1]] == es;
    }
  }

  /** In every run, the player a session has, or is being given, is one that an authentication of that
      very session answered with. */
  lemma PlayersAreTheirOwn(es: seq<Event>, p: int)
    ensures var s := Run(START, es);
            && (forall ptr | ptr in s.heap && s.heap[ptr].player == Some(p) :: Answered(es, s.heap[ptr].id, p))
            && (forall k | k in s.tasks && Names(s.tasks[k].work, p) :: Answered(es, s.tasks[k].id, p))
  {
    EveryPlayerWasAnswered(es);
  }
}
