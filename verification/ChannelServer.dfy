/** The channel server as an object: each method is one critical section or atomic step, and does to
    the fields what the event of the same name does to the state. */
module ChannelServer {
  import opened Common
  import opened ChannelSessions

  class ChannelServer {
    var sessions: map<int, int>
    var heap: map<int, Session>
    var openFds: set<int>
    var nextId: int
    var tasks: map<int, Task>
    var jobs: map<int, Job>
    var registered: map<int, int>
    var userCount: nat
    const maxUsers: nat

    ghost function View(): State
      reads this
    {
      State(sessions, heap, openFds, nextId, tasks, jobs, registered)
    }

    constructor (maxUsers: nat)
      ensures View() == START && userCount == 0 && this.maxUsers == maxUsers
    {
      userCount, this.maxUsers := 0, maxUsers;
      sessions, heap, openFds, nextId, tasks, jobs, registered := map[], map[], {}, 1, map[], map[], map[];
    }

    /** The operating system hands out sockets that are not open and memory that is not in use. At
        the user limit the connection is closed again. */
    method AcceptSession(fd: int, ptr: int) returns (accepted: bool)
      requires fd !in openFds && ptr !in heap
      modifies this
      ensures accepted <==> old(userCount) < maxUsers
      ensures userCount == old(userCount) + if accepted then 1 else 0
      ensures View() == if accepted then Accept(old(View()), fd, ptr) else old(View())
    {
      if userCount >= maxUsers { return false; }
      userCount := userCount + 1;
      openFds := openFds + {fd};
      heap := heap[ptr := Session(nextId, fd, Live, 0, Unauthenticated, None)];
      nextId := nextId + 1;
      sessions := sessions[fd := ptr];
      return true;
    }

    /** Counts a task in, unless the session is closing. */
    method TryBeginTask(ptr: int) returns (ok: bool)
      requires ptr in heap
      modifies this`heap
      ensures ok <==> old(heap[ptr]).stage == Live
      ensures heap == if ok then old(heap)[ptr := old(heap[ptr]).(inFlight := old(heap[ptr]).inFlight + 1)]
              else old(heap)
    {
      if heap[ptr].stage != Live { return false; }
      heap := heap[ptr := heap[ptr].(inFlight := heap[ptr].inFlight + 1)];
      return true;
    }

    method BeginValidSessionTask(fd: int, id: int) returns (found: Option<int>)
      requires forall f | f in sessions :: sessions[f] in heap
      modifies this`heap
      ensures found == FindValid(old(View()), fd, id)
      ensures heap == match found
                      case None => old(heap)
                      case Some(p) => old(heap)[p := old(heap[p]).(inFlight := old(heap[p]).inFlight + 1)]
    {
      if fd !in sessions { return None; }
      var ptr := sessions[fd];
      if heap[ptr].id != id { return None; }
      var ok := TryBeginTask(ptr);
      return if ok then Some(ptr) else None;
    }

    /** A worker takes a job, or the game loop an authentication result. */
    method TakeJob(j: int, tid: int)
      requires j in jobs && !jobs[j].AuthJob? && tid !in tasks
      requires forall f | f in sessions :: sessions[f] in heap
      modifies this
      ensures View() == BeginTask(old(View()), j, tid)
    {
      var job := jobs[j];
      jobs := jobs - {j};
      var found := BeginValidSessionTask(job.fd, job.id);
      match found {
        case None =>
        case Some(ptr) =>
          var work := if job.GameJob? then Gameplay else if job.player.None? then Reset else Attach(job.player.value);
          tasks := tasks[tid := Task(ptr, job.id, work)];
      }
    }

    method EndSessionTask(tid: int)
      requires tid in tasks && (tasks[tid].work.Gameplay? || tasks[tid].work.Finished?) && tasks[tid].ptr in heap
      modifies this
      ensures View() == EndTask(old(View()), tid)
    {
      var ptr := tasks[tid].ptr;
      if heap[ptr].inFlight > 0 {
        heap := heap[ptr := heap[ptr].(inFlight := heap[ptr].inFlight - 1)];
      }
      tasks := tasks - {tid};
    }

    method TryBeginAuthentication(ptr: int) returns (ok: bool)
      requires ptr in heap
      modifies this`heap
      ensures ok <==> old(heap[ptr]).auth == Unauthenticated
      ensures heap == if ok then old(heap)[ptr := old(heap[ptr]).(auth := Authenticating)] else old(heap)
    {
      ok := heap[ptr].auth == Unauthenticated;
      if ok { heap := heap[ptr := heap[ptr].(auth := Authenticating)]; }
    }

    method Dispatch(fd: int, isAuth: bool, j: int)
      requires fd in sessions && sessions[fd] in heap && j !in jobs
      modifies this
      ensures View() == if isAuth then DispatchAuth(old(View()), fd, j) else DispatchGame(old(View()), fd, j)
    {
      var ptr := sessions[fd];
      var r := heap[ptr];
      if isAuth {
        var ok := TryBeginAuthentication(ptr);
        if ok { jobs := jobs[j := AuthJob(r.fd, r.id)]; }
        return;
      }
      if r.auth != Authenticated { return; }
      jobs := jobs[j := GameJob(r.fd, r.id)];
    }

    /** One stage of handling an authentication result: register the player, give it to the session,
        mark the session authenticated; or take the session back to unauthenticated. */
    method Attaching(tid: int)
      requires tid in tasks && tasks[tid].ptr in heap
      modifies this
      ensures View() == AttachStep(old(View()), tid)
    {
      var t := tasks[tid];
      var r := heap[t.ptr];
      match t.work {
        case Attach(player) =>
          if player in registered {
            tasks := tasks[tid := t.(work := Reset)];
          } else {
            registered := registered[player := t.ptr];
            tasks := tasks[tid := t.(work := Added(player))];
          }
        case Added(player) =>
          heap := heap[t.ptr := r.(player := Some(player))];
          tasks := tasks[tid := t.(work := PlayerSet(player))];
        case PlayerSet(_) =>
          heap := heap[t.ptr := r.(auth := Authenticated)];
          tasks := tasks[tid := t.(work := Finished)];
        case Reset =>
          heap := heap[t.ptr := r.(auth := Unauthenticated)];
          tasks := tasks[tid := t.(work := Finished)];
        case _ =>
      }
      assert heap == AttachStep(old(View()), tid).heap;
      assert tasks == AttachStep(old(View()), tid).tasks;
    }

    /** The part of OnDisconnect under the session mutex. */
    method MarkClosing(fd: int)
      requires forall f | f in sessions :: sessions[f] in heap
      modifies this
      ensures View() == StartDisconnect(old(View()), fd)
    {
      if fd !in sessions { return; }
      var ptr := sessions[fd];
      heap := heap[ptr := heap[ptr].(stage := Closing)];
      sessions := sessions - {fd};
    }

    /** The rest of OnDisconnect, one step a call: close, wait, finalize, free. */
    method FinishDisconnect(ptr: int)
      requires ptr in heap && heap[ptr].stage != Live
      modifies this
      ensures View() == Disconnecting(old(View()), ptr)
      ensures userCount == old(userCount) - if old(heap)[ptr].stage == Finalized && old(userCount) > 0 then 1 else 0
    {
      var r := heap[ptr];
      match r.stage {
        case Closing =>
          openFds := openFds - {r.fd};
          heap := heap[ptr := r.(stage := SocketClosed)];
        case SocketClosed =>
          if r.inFlight == 0 { heap := heap[ptr := r.(stage := Idle)]; }
        case Idle =>
          heap := heap[ptr := r.(stage := Finalized, player := None)];
          if r.player.Some? { registered := registered - {r.player.value}; }
        case Finalized =>
          heap := heap - {ptr};
          if userCount > 0 { userCount := userCount - 1; }
      }
    }
  }
}
