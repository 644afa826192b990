/** Session lifetime, identity and authentication of the channel server.

    Any number of worker threads run tasks against sessions while the game loop accepts,
    authenticates and disconnects them. Each event is one critical section or atomic operation;
    a run is any sequence of events. Sockets (`fd`) and session addresses (`ptr`) may be reused as
    soon as they are closed or freed; session ids never are.
 */
module ChannelSessions {
  import opened Common

  datatype Auth = Unauthenticated | Authenticating | Authenticated

  /** How far OnDisconnect has got with a session; the last step frees it. */
  datatype Stage = Live | Closing | SocketClosed | Idle | Finalized

  datatype Session = Session(id: int, fd: int, stage: Stage, inFlight: nat, auth: Auth, player: Option<int>)

  /** What a task that holds a session has still to do with it. `Gameplay` covers packet handlers
      and periodic saves; the others are the stages of attaching an authenticated player. */
  datatype Work =
    | Gameplay
    | Attach(player: int)
    | Added(player: int)
    | PlayerSet(player: int)
    | Reset
    | Finished

  /** A running task: the address it got, and the id it was issued for. */
  datatype Task = Task(ptr: int, id: int, work: Work)

  /** Queued: a gameplay packet, an authentication under way, or its result. */
  datatype Job =
    | GameJob(fd: int, id: int)
    | AuthJob(fd: int, id: int)
    | AuthResult(fd: int, id: int, player: Option<int>)

  /** `registered` is the player registry, with the address of the session each player belongs to. */
  datatype State = State(sessions: map<int, int>, heap: map<int, Session>, openFds: set<int>, nextId: int,
                         tasks: map<int, Task>, jobs: map<int, Job>, registered: map<int, int>)

  const START: State := State(map[], map[], {}, 1, map[], map[], map[])

  // ---------------------------------------------------------------- critical sections

  function Accept(s: State, fd: int, ptr: int): State {
    if fd in s.openFds || ptr in s.heap then s
    else s.(sessions := s.sessions[fd := ptr],
            heap := s.heap[ptr := Session(s.nextId, fd, Live, 0, Unauthenticated, None)],
            openFds := s.openFds + {fd}, nextId := s.nextId + 1)
  }

  /** The session found under `fd`, if it is the one meant and not closing. */
  function FindValid(s: State, fd: int, id: int): Option<int> {
    if fd in s.sessions && s.sessions[fd] in s.heap
       && s.heap[s.sessions[fd]].id == id && s.heap[s.sessions[fd]].stage == Live
    then Some(s.sessions[fd]) else None
  }

  function SetSession(s: State, ptr: int, r: Session): State { s.(heap := s.heap[ptr := r]) }

  /** BeginValidSessionTask for a queued job; a job whose session is gone is dropped. */
  function BeginTask(s: State, j: int, tid: int): State {
    if j !in s.jobs || s.jobs[j].AuthJob? || tid in s.tasks then s
    else
      var job := s.jobs[j];
      var s := s.(jobs := s.jobs - {j});
      match FindValid(s, job.fd, job.id)
      case None => s
      case Some(ptr) =>
        var work := if job.GameJob? then Gameplay
                    else if job.player.None? then Reset else Attach(job.player.value);
        SetSession(s, ptr, s.heap[ptr].(inFlight := s.heap[ptr].inFlight + 1))
        .(tasks := s.tasks[tid := Task(ptr, job.id, work)])
  }

  function EndTask(s: State, tid: int): State {
    if tid !in s.tasks || !(s.tasks[tid].work.Gameplay? || s.tasks[tid].work.Finished?)
        || s.tasks[tid].ptr !in s.heap then s
    else
      var ptr := s.tasks[tid].ptr;
      var r := s.heap[ptr];
      SetSession(s, ptr, r.(inFlight := if r.inFlight > 0 then r.inFlight - 1 else 0)).(tasks := s.tasks - {tid})
  }

  /** Dispatch of an authentication packet: only the one that wins the exchange queues a job. */
  function DispatchAuth(s: State, fd: int, j: int): State {
    if fd !in s.sessions || s.sessions[fd] !in s.heap || j in s.jobs then s
    else
      var ptr := s.sessions[fd];
      var r := s.heap[ptr];
      if r.auth != Unauthenticated then s
      else SetSession(s, ptr, r.(auth := Authenticating)).(jobs := s.jobs[j := AuthJob(r.fd, r.id)])
  }

  /** Dispatch of any other packet: rejected unless authenticated. */
  function DispatchGame(s: State, fd: int, j: int): State {
    if fd !in s.sessions || s.sessions[fd] !in s.heap || j in s.jobs then s
    else
      var r := s.heap[s.sessions[fd]];
      if r.auth != Authenticated then s else s.(jobs := s.jobs[j := GameJob(r.fd, r.id)])
  }

  function AuthDone(s: State, j: int, player: Option<int>): State {
    if j !in s.jobs || !s.jobs[j].AuthJob? then s
    else s.(jobs := s.jobs[j := AuthResult(s.jobs[j].fd, s.jobs[j].id, player)])
  }

  /** Attaching the player an authentication returned, stage by stage: what each stage does to the
      task, to its session and to the registry. */
  function NextWork(w: Work, registered: map<int, int>): Work {
    match w
    case Attach(p) => if p in registered then Reset else Added(p)
    case Added(p) => PlayerSet(p)
    case PlayerSet(_) => Finished
    case Reset => Finished
    case _ => w
  }

  function NextSession(w: Work, r: Session): Session {
    match w
    case Added(p) => r.(player := Some(p))
    case PlayerSet(_) => r.(auth := Authenticated)
    case Reset => r.(auth := Unauthenticated)
    case _ => r
  }

  function NextRegistered(w: Work, ptr: int, registered: map<int, int>): map<int, int> {
    if w.Attach? && w.player !in registered then registered[w.player := ptr] else registered
  }

  function AttachStep(s: State, tid: int): State {
    if tid !in s.tasks || s.tasks[tid].ptr !in s.heap then s
    else
      var t := s.tasks[tid];
      s.(heap := s.heap[t.ptr := NextSession(t.work, s.heap[t.ptr])],
         tasks := s.tasks[tid := t.(work := NextWork(t.work, s.registered))],
         registered := NextRegistered(t.work, t.ptr, s.registered))
  }

  /** OnDisconnect under the session mutex. */
  function StartDisconnect(s: State, fd: int): State {
    if fd !in s.sessions || s.sessions[fd] !in s.heap then s
    else
      var ptr := s.sessions[fd];
      SetSession(s, ptr, s.heap[ptr].(stage := Closing)).(sessions := s.sessions - {fd})
  }

  /** The rest of OnDisconnect: close the socket, wait for no tasks, finalize, free. */
  function Disconnecting(s: State, ptr: int): State {
    if ptr !in s.heap then s
    else
      var r := s.heap[ptr];
      match r.stage
      case Live => s
      case Closing => SetSession(s, ptr, r.(stage := SocketClosed)).(openFds := s.openFds - {r.fd})
      case SocketClosed => if r.inFlight != 0 then s else SetSession(s, ptr, r.(stage := Idle))
      case Idle =>
        SetSession(s, ptr, r.(stage := Finalized, player := None))
        .(registered := if r.player.Some? then s.registered - {r.player.value} else s.registered)
      case Finalized => s.(heap := s.heap - {ptr})
  }

  datatype Event =
    | EAccept(fd: int, ptr: int) | EDispatchAuth(fd: int, job: int) | EDispatchGame(fd: int, job: int)
    | EAuthDone(job: int, player: Option<int>) | EBegin(job: int, tid: int) | EAttach(tid: int) | EEnd(tid: int)
    | EDisconnect(fd: int) | EDisconnecting(ptr: int)

  function Apply(s: State, e: Event): State {
    match e
    case EAccept(fd, ptr) => Accept(s, fd, ptr)
    case EDispatchAuth(fd, j) => DispatchAuth(s, fd, j)
    case EDispatchGame(fd, j) => DispatchGame(s, fd, j)
    case EAuthDone(j, p) => AuthDone(s, j, p)
    case EBegin(j, tid) => BeginTask(s, j, tid)
    case EAttach(tid) => AttachStep(s, tid)
    case EEnd(tid) => EndTask(s, tid)
    case EDisconnect(fd) => StartDisconnect(s, fd)
    case EDisconnecting(ptr) => Disconnecting(s, ptr)
  }

  function Run(s: State, es: seq<Event>): State
    decreases |es|
  {
    if es == [] then s else Run(Apply(s, es[0]), es[1..])
  }

  // ---------------------------------------------------------------- lifetime

  predicate HoldsSocket(r: Session) { r.stage == Live || r.stage == Closing }

  /** Session ids are never reused, whatever happens to addresses. */
  ghost predicate UniqueIds(s: State) {
    && (forall p | p in s.heap :: s.heap[p].id < s.nextId)
    && (forall p, q | p in s.heap && q in s.heap && s.heap[p].id == s.heap[q].id :: p == q)
  }

  /** The index holds exactly the live sessions; a session's socket is its own until it is closed. */
  ghost predicate Indexed(s: State) {
    && (forall fd | fd in s.sessions :: s.sessions[fd] in s.heap && s.heap[s.sessions[fd]].fd == fd
                                        && s.heap[s.sessions[fd]].stage == Live)
    && (forall p | p in s.heap && HoldsSocket(s.heap[p]) :: s.heap[p].fd in s.openFds)
    && (forall p | p in s.heap && s.heap[p].stage == Live ::
          s.heap[p].fd in s.sessions && s.sessions[s.heap[p].fd] == p)
    && (forall p, q | p in s.heap && q in s.heap && HoldsSocket(s.heap[p]) && HoldsSocket(s.heap[q])
                      && s.heap[p].fd == s.heap[q].fd :: p == q)
  }

  function Holders(tasks: map<int, Task>, ptr: int): set<int> {
    set tid | tid in tasks && tasks[tid].ptr == ptr
  }

  predicate Drained(r: Session) { r.stage == Idle || r.stage == Finalized }

  /** Every running task holds an existing session, the one it was issued for; the counter counts
      exactly the holders, and none is left once the session has been waited for. */
  ghost predicate Counted(s: State) {
    && (forall tid | tid in s.tasks :: s.tasks[tid].ptr in s.heap && s.heap[s.tasks[tid].ptr].id == s.tasks[tid].id)
    && (forall p | p in s.heap :: s.heap[p].inFlight == |Holders(s.tasks, p)|)
    && (forall p | p in s.heap && Drained(s.heap[p]) :: s.heap[p].inFlight == 0)
  }

  lemma HolderCounts(tasks: map<int, Task>, ptr: int, tid: int)
    requires tid in tasks && tasks[tid].ptr == ptr
    ensures |Holders(tasks, ptr)| > 0
  {
    assert tid in Holders(tasks, ptr);
  }

  lemma HoldersChange(tasks: map<int, Task>, tid: int, t: Task, ptr: int)
    requires tid !in tasks
    ensures Holders(tasks[tid := t], ptr) == if t.ptr == ptr then Holders(tasks, ptr) + {tid} else Holders(tasks, ptr)
    ensures tid !in Holders(tasks, ptr)
  {
  }

  /** Same sessions, sockets and stages; only counters, authentication and players may differ. */
  ghost predicate SameShape(s: State, u: State) {
    && u.sessions == s.sessions && u.openFds == s.openFds && u.nextId == s.nextId && u.heap.Keys == s.heap.Keys
    && forall p | p in s.heap ::
         u.heap[p].id == s.heap[p].id && u.heap[p].fd == s.heap[p].fd && u.heap[p].stage == s.heap[p].stage
  }

  lemma SameShapeIndexed(s: State, u: State)
    requires Indexed(s) && SameShape(s, u)
    ensures Indexed(u)
  {
    forall fd | fd in u.sessions
      ensures u.sessions[fd] in u.heap && u.heap[u.sessions[fd]].fd == fd && u.heap[u.sessions[fd]].stage == Live
    {
      var p := s.sessions[fd];
      assert p in s.heap && s.heap[p].fd == fd && s.heap[p].stage == Live;
    }
  }

  lemma AcceptIndexed(s: State, fd: int, ptr: int)
    requires Indexed(s)
    ensures Indexed(Accept(s, fd, ptr))
  {
  }

  lemma DisconnectIndexed(s: State, fd: int)
    requires Indexed(s)
    ensures Indexed(StartDisconnect(s, fd))
  {
  }

  lemma SocketClosedIndexed(s: State, ptr: int)
    requires Indexed(s) && ptr in s.heap && s.heap[ptr].stage == Closing
    ensures Indexed(Disconnecting(s, ptr))
  {
  }

  /** Stages after the socket is closed do not touch the index. */
  lemma OffSocketIndexed(s: State, u: State, ptr: int)
    requires Indexed(s) && ptr in s.heap && !HoldsSocket(s.heap[ptr])
    requires u.sessions == s.sessions && u.openFds == s.openFds && u.heap.Keys <= s.heap.Keys
    requires forall p | p in s.heap && p != ptr :: p in u.heap && u.heap[p] == s.heap[p]
    requires ptr in u.heap ==> !HoldsSocket(u.heap[ptr])
    ensures Indexed(u)
  {
    forall fd | fd in u.sessions
      ensures u.sessions[fd] in u.heap && u.heap[u.sessions[fd]].fd == fd && u.heap[u.sessions[fd]].stage == Live
    {
      var p := s.sessions[fd];
      assert p in s.heap && s.heap[p].fd == fd && s.heap[p].stage == Live;
    }
  }

  lemma QuietShape(s: State, e: Event)
    requires !e.EAccept? && !e.EDisconnect? && !e.EDisconnecting?
    ensures SameShape(s, Apply(s, e))
  {
  }

  lemma QuietEventIndexed(s: State, e: Event)
    requires Indexed(s) && !e.EAccept? && !e.EDisconnect? && !e.EDisconnecting?
    ensures Indexed(Apply(s, e))
  {
    QuietShape(s, e);
    SameShapeIndexed(s, Apply(s, e));
  }

  /** What is left of the disconnecting session keeps its id and authentication, and the rest of
      the server does not notice. */
  lemma DisconnectingFrame(s: State, ptr: int)
    ensures var u := Disconnecting(s, ptr);
            && u.tasks == s.tasks && u.jobs == s.jobs && u.nextId == s.nextId && u.heap.Keys <= s.heap.Keys
            && forall p | p in u.heap :: u.heap[p].id == s.heap[p].id && u.heap[p].auth == s.heap[p].auth
                                         && u.heap[p].inFlight == s.heap[p].inFlight
  {
    if ptr in s.heap {
      match s.heap[ptr].stage
      case Live =>
      case Closing =>
      case SocketClosed =>
      case Idle =>
      case Finalized =>
    }
  }

  lemma StartDisconnectFrame(s: State, fd: int)
    ensures var u := StartDisconnect(s, fd);
            && u.tasks == s.tasks && u.jobs == s.jobs && u.nextId == s.nextId && u.heap.Keys == s.heap.Keys
            && forall p | p in u.heap :: u.heap[p].id == s.heap[p].id && u.heap[p].auth == s.heap[p].auth
                                         && u.heap[p].inFlight == s.heap[p].inFlight
  {
  }

  lemma ApplyKeepsIndexed(s: State, e: Event)
    requires Indexed(s)
    ensures Indexed(Apply(s, e))
  {
    match e
    case EAccept(fd, ptr) => AcceptIndexed(s, fd, ptr);
    case EDisconnect(fd) => DisconnectIndexed(s, fd);
    case EDisconnecting(ptr) =>
      if ptr in s.heap && s.heap[ptr].stage == Closing {
        SocketClosedIndexed(s, ptr);
      } else if ptr in s.heap && s.heap[ptr].stage != Live {
        OffSocketIndexed(s, Disconnecting(s, ptr), ptr);
      }
    case _ => QuietEventIndexed(s, e);
  }

  lemma SameIds(s: State, u: State)
    requires UniqueIds(s) && u.heap.Keys <= s.heap.Keys && u.nextId == s.nextId
    requires forall p | p in u.heap :: u.heap[p].id == s.heap[p].id
    ensures UniqueIds(u)
  {
  }

  lemma ApplyKeepsUniqueIds(s: State, e: Event)
    requires UniqueIds(s)
    ensures UniqueIds(Apply(s, e)) && s.nextId <= Apply(s, e).nextId
  {
    match e
    case EAccept(fd, ptr) =>
    case EDisconnect(fd) => StartDisconnectFrame(s, fd); SameIds(s, Apply(s, e));
    case EDisconnecting(ptr) => DisconnectingFrame(s, ptr); SameIds(s, Apply(s, e));
    case _ => QuietShape(s, e); SameIds(s, Apply(s, e));
  }

  lemma BeginCounted(s: State, j: int, tid: int)
    requires Indexed(s) && Counted(s)
    ensures Counted(BeginTask(s, j, tid))
  {
    var u := BeginTask(s, j, tid);
    if tid in u.tasks && tid !in s.tasks {
      forall p | p in u.heap ensures u.heap[p].inFlight == |Holders(u.tasks, p)| {
        HoldersChange(s.tasks, tid, u.tasks[tid], p);
      }
    }
  }

  lemma EndCounted(s: State, tid: int)
    requires Indexed(s) && Counted(s)
    ensures Counted(EndTask(s, tid))
  {
    var u := EndTask(s, tid);
    if tid in s.tasks && tid !in u.tasks {
      HolderCounts(s.tasks, s.tasks[tid].ptr, tid);
      assert s.tasks == u.tasks[tid := s.tasks[tid]];
      forall p | p in u.heap ensures u.heap[p].inFlight == |Holders(u.tasks, p)| {
        HoldersChange(u.tasks, tid, s.tasks[tid], p);
      }
    }
  }

  lemma AttachFrame(s: State, tid: int)
    ensures var u := AttachStep(s, tid);
            && u.tasks.Keys == s.tasks.Keys && u.heap.Keys == s.heap.Keys
            && (forall i | i in s.tasks :: u.tasks[i].ptr == s.tasks[i].ptr && u.tasks[i].id == s.tasks[i].id)
            && forall p | p in s.heap :: u.heap[p].inFlight == s.heap[p].inFlight && u.heap[p].id == s.heap[p].id
                                         && u.heap[p].stage == s.heap[p].stage
  {
  }

  lemma AttachCounted(s: State, tid: int)
    requires Counted(s)
    ensures Counted(AttachStep(s, tid))
  {
    AttachFrame(s, tid);
    var u := AttachStep(s, tid);
    forall p | p in u.heap ensures u.heap[p].inFlight == |Holders(u.tasks, p)| {
      assert Holders(u.tasks, p) == Holders(s.tasks, p);
    }
  }

  lemma FreedCounted(s: State, ptr: int)
    requires Counted(s)
    ensures Counted(Disconnecting(s, ptr))
  {
    if ptr in s.heap && s.heap[ptr].stage == Finalized {
      assert Holders(s.tasks, ptr) == {};
      forall tid | tid in s.tasks ensures s.tasks[tid].ptr != ptr {
        if s.tasks[tid].ptr == ptr { HolderCounts(s.tasks, ptr, tid); }
      }
    }
  }

  lemma AcceptCounted(s: State, fd: int, ptr: int)
    requires Counted(s)
    ensures Counted(Accept(s, fd, ptr))
  {
    if ptr !in s.heap {
      assert forall tid | tid in s.tasks :: s.tasks[tid].ptr != ptr;
      assert Holders(s.tasks, ptr) == {};
    }
  }

  lemma ApplyKeepsCounted(s: State, e: Event)
    requires Indexed(s) && Counted(s)
    ensures Counted(Apply(s, e))
  {
    match e
    case EAccept(fd, ptr) => AcceptCounted(s, fd, ptr);
    case EBegin(j, tid) => BeginCounted(s, j, tid);
    case EAttach(tid) => AttachCounted(s, tid);
    case EEnd(tid) => EndCounted(s, tid);
    case EDisconnecting(ptr) => FreedCounted(s, ptr);
    case _ =>
  }
}
