/** Worker threads and the pool that hands them tasks: equal keys go to one worker, which runs its
    queue in order.

    Each event is one section under the worker's mutex, the stores of Start and Stop, or the end
    of a task; a run is any interleaving of submitters, workers and Stop. */
module Scheduling {
  import opened Common

  datatype Task = Task(id: int, key: Option<nat>)

  /** `accepted` and `executed` are histories; `current` is the task being executed. */
  datatype Worker = Worker(running: bool, started: bool, exited: bool, queue: seq<Task>, current: Option<Task>,
                           accepted: seq<Task>, executed: seq<Task>)

  const FRESH: Worker := Worker(false, false, false, [], None, [], [])

  function Start(w: Worker): Worker { if w.started then w else w.(started := true, running := true) }

  function Stop(w: Worker): Worker { w.(running := false) }

  function Push(w: Worker, t: Task): Worker {
    if !w.running then w else w.(queue := w.queue + [t], accepted := w.accepted + [t])
  }

  /** The worker's locked section: take a task, leave, or go on waiting. */
  function Take(w: Worker): Worker {
    if !w.started || w.exited || w.current.Some? then w
    else if w.queue != [] then w.(current := Some(w.queue[0]), queue := w.queue[1..])
    else if !w.running then w.(exited := true)
    else w
  }

  function Finish(w: Worker): Worker {
    if w.current.None? then w else w.(current := None, executed := w.executed + [w.current.value])
  }

  function InFlight(w: Worker): seq<Task> { if w.current.Some? then [w.current.value] else [] }

  ghost predicate Valid(w: Worker) {
    && w.accepted == w.executed + InFlight(w) + w.queue
    && (w.exited ==> w.started && !w.running && w.queue == [] && w.current == None)
    && (!w.started ==> !w.running && w.accepted == [])
  }

  lemma WorkerKeeps(w: Worker, t: Task)
    requires Valid(w)
    ensures Valid(Start(w)) && Valid(Stop(w)) && Valid(Push(w, t)) && Valid(Take(w)) && Valid(Finish(w))
  {
    if w.queue != [] {
      assert w.executed + [] + w.queue == w.executed + [w.queue[0]] + w.queue[1..];
    }
    assert (w.executed + InFlight(w) + w.queue) + [t] == w.executed + InFlight(w) + (w.queue + [t]);
    if w.current.Some? {
      var ran := w.executed + [w.current.value];
      assert ran + [] + w.queue == ran + w.queue;
    }
  }

  // ---------------------------------------------------------------- the pool

  /** `log`: accepted tasks of the whole pool, in order of acceptance. */
  datatype Pool = Pool(workers: seq<Worker>, nextIndex: nat, log: seq<Task>)

  datatype Event =
    | Submit(id: int)
    | SubmitByKey(key: nat, id: int)
    | StartWorker(i: nat) | StopWorker(i: nat) | TakeTask(i: nat) | FinishTask(i: nat)

  /** How many workers a pool asked for `threads` of them has. */
  function PoolSize(threads: nat): nat { if threads == 0 then 4 else threads }

  function NewPool(threads: nat): Pool { Pool(seq(PoolSize(threads), i => FRESH), 0, []) }

  function PushTo(p: Pool, i: nat, t: Task): Pool
    requires i < |p.workers|
  {
    p.(workers := p.workers[i := Push(p.workers[i], t)], log := if p.workers[i].running then p.log + [t] else p.log)
  }

  function Apply(p: Pool, e: Event): Pool
    requires p.nextIndex < |p.workers|
  {
    match e
    case Submit(id) => PushTo(p, p.nextIndex, Task(id, None)).(nextIndex := (p.nextIndex + 1) % |p.workers|)
    case SubmitByKey(key, id) => PushTo(p, key % |p.workers|, Task(id, Some(key)))
    case StartWorker(i) => if i < |p.workers| then p.(workers := p.workers[i := Start(p.workers[i])]) else p
    case StopWorker(i) => if i < |p.workers| then p.(workers := p.workers[i := Stop(p.workers[i])]) else p
    case TakeTask(i) => if i < |p.workers| then p.(workers := p.workers[i := Take(p.workers[i])]) else p
    case FinishTask(i) => if i < |p.workers| then p.(workers := p.workers[i := Finish(p.workers[i])]) else p
  }

  function Run(p: Pool, es: seq<Event>): Pool
    requires p.nextIndex < |p.workers|
    decreases |es|
  {
    if es == [] then p else Run(Apply(p, es[0]), es[1..])
  }

  /** The tasks of one key, in order. */
  function Keyed(ts: seq<Task>, key: nat): seq<Task> {
    if ts == [] then []
    else if ts[0].key == Some(key) then [ts[0]] + Keyed(ts[1..], key)
    else Keyed(ts[1..], key)
  }

  lemma {:induction false} KeyedJoins(a: seq<Task>, b: seq<Task>, key: nat)
    ensures Keyed(a + b, key) == Keyed(a, key) + Keyed(b, key)
  {
    if a == [] {
      assert a + b == b;
    } else {
      assert (a + b)[0] == a[0] && (a + b)[1..] == a[1..] + b;
      KeyedJoins(a[1..], b, key);
      assert [a[0]] + (Keyed(a[1..], key) + Keyed(b, key)) == ([a[0]] + Keyed(a[1..], key)) + Keyed(b, key);
    }
  }

  /** Each worker has accepted exactly the pool's tasks of its own keys, in the same order. */
  ghost predicate Inv(p: Pool) {
    && p.nextIndex < |p.workers|
    && (forall i | 0 <= i < |p.workers| :: Valid(p.workers[i]))
    && forall i, key: nat | 0 <= i < |p.workers| :: Owns(p, i, key)
  }

  predicate Owns(p: Pool, i: nat, key: nat)
    requires i < |p.workers|
  {
    Keyed(p.workers[i].accepted, key) == if key % |p.workers| == i then Keyed(p.log, key) else []
  }

  lemma PushKeepsOwns(p: Pool, at: nat, t: Task, i: nat, key: nat)
    requires at < |p.workers| && i < |p.workers| && Owns(p, i, key)
    requires t.key.Some? ==> at == t.key.value % |p.workers|
    ensures Owns(PushTo(p, at, t), i, key)
  {
    KeyedJoins(p.workers[at].accepted, [t], key);
    KeyedJoins(p.log, [t], key);
  }

  lemma PushKeeps(p: Pool, at: nat, t: Task)
    requires Inv(p) && at < |p.workers| && (t.key.Some? ==> at == t.key.value % |p.workers|)
    ensures Inv(PushTo(p, at, t))
  {
    var q := PushTo(p, at, t);
    WorkerKeeps(p.workers[at], t);
    forall i, key: nat | 0 <= i < |q.workers| ensures Owns(q, i, key) {
      assert Owns(p, i, key);
      PushKeepsOwns(p, at, t, i, key);
    }
  }

  /** A worker may change in any way that keeps it valid and accepts nothing. */
  lemma WorkerStepKeeps(p: Pool, at: nat, w: Worker)
    requires Inv(p) && at < |p.workers| && Valid(w) && w.accepted == p.workers[at].accepted
    ensures Inv(p.(workers := p.workers[at := w]))
  {
    var q := p.(workers := p.workers[at := w]);
    forall i, key: nat | 0 <= i < |q.workers| ensures Owns(q, i, key) {
      assert Owns(p, i, key);
    }
  }

  lemma ApplyKeeps(p: Pool, e: Event)
    requires Inv(p)
    ensures Inv(Apply(p, e))
  {
    match e
    case Submit(id) =>
      PushKeeps(p, p.nextIndex, Task(id, None));
      var q := PushTo(p, p.nextIndex, Task(id, None));
      forall i, key: nat | 0 <= i < |q.workers| ensures Owns(Apply(p, e), i, key) { assert Owns(q, i, key); }
    case SubmitByKey(key, id) => PushKeeps(p, key % |p.workers|, Task(id, Some(key)));
    case StartWorker(i) => if i < |p.workers| { WorkerEventKeeps(p, i, Start(p.workers[i])); }
    case StopWorker(i) => if i < |p.workers| { WorkerEventKeeps(p, i, Stop(p.workers[i])); }
    case TakeTask(i) => if i < |p.workers| { WorkerEventKeeps(p, i, Take(p.workers[i])); }
    case FinishTask(i) => if i < |p.workers| { WorkerEventKeeps(p, i, Finish(p.workers[i])); }
  }

  lemma WorkerEventKeeps(p: Pool, at: nat, w: Worker)
    requires Inv(p) && at < |p.workers|
    requires var v := p.workers[at]; w == Start(v) || w == Stop(v) || w == Take(v) || w == Finish(v)
    ensures Inv(p.(workers := p.workers[at := w]))
  {
    WorkerKeeps(p.workers[at], Task(0, None));
    WorkerStepKeeps(p, at, w);
  }

  lemma {:induction false} EveryRunKeeps(p: Pool, es: seq<Event>)
    requires Inv(p)
    ensures Inv(Run(p, es)) && |Run(p, es).workers| == |p.workers|
    decreases |es|
  {
    if es != [] {
      ApplyKeeps(p, es[0]);
      EveryRunKeeps(Apply(p, es[0]), es[1..]);
    }
  }

  lemma NewPoolIsValid(threads: nat)
    ensures Inv(NewPool(threads))
  {
    var p := NewPool(threads);
    forall i, key: nat | 0 <= i < |p.workers| ensures Owns(p, i, key) {
      assert p.workers[i] == FRESH;
    }
  }

  /** In every interleaving, tasks of one key run only on their worker, once each and in order of
      acceptance: what has run is a prefix of what was accepted, and all of it once the worker has
      left, which it does only with nothing left to run. */
  lemma KeyedTasksRunInOrder(threads: nat, es: seq<Event>, key: nat, i: nat)
    requires i < PoolSize(threads)
    ensures var p := Run(NewPool(threads), es); var mine := key % PoolSize(threads);
            && |p.workers| == PoolSize(threads) && mine < |p.workers|
            && Keyed(p.workers[mine].executed, key) <= Keyed(p.log, key)
            && (p.workers[mine].exited ==> Keyed(p.workers[mine].executed, key) == Keyed(p.log, key))
            && (i != mine ==> Keyed(p.workers[i].executed, key) == [])
  {
    NewPoolIsValid(threads);
    EveryRunKeeps(NewPool(threads), es);
    var p := Run(NewPool(threads), es);
    var mine := key % PoolSize(threads);
    assert Owns(p, mine, key) && Owns(p, i, key);
    RanIsPrefix(p.workers[mine], key);
    RanIsPrefix(p.workers[i], key);
  }

  lemma RanIsPrefix(w: Worker, key: nat)
    requires Valid(w)
    ensures Keyed(w.executed, key) <= Keyed(w.accepted, key)
    ensures w.exited ==> w.executed == w.accepted
  {
    assert w.accepted == w.executed + (InFlight(w) + w.queue);
    KeyedJoins(w.executed, InFlight(w) + w.queue, key);
  }

  /** A worker that has left accepts nothing more. */
  lemma NothingAcceptedAfterExit(threads: nat, es: seq<Event>, i: nat, t: Task)
    requires i < PoolSize(threads) == |Run(NewPool(threads), es).workers| && Run(NewPool(threads), es).workers[i].exited
    ensures var w := Run(NewPool(threads), es).workers[i]; Push(w, t) == w && w.executed == w.accepted && w.queue == []
  {
    NewPoolIsValid(threads);
    EveryRunKeeps(NewPool(threads), es);
    RanIsPrefix(Run(NewPool(threads), es).workers[i], 0);
  }

  // ---------------------------------------------------------------- unkeyed tasks, and stopping

  function Submits(es: seq<Event>): nat {
    if es == [] then 0 else (if es[0].Submit? then 1 else 0) + Submits(es[1..])
  }

  /** Whose turn it is among `n` after `k` turns. */
  function Turn(k: nat, n: nat): (t: nat)
    requires n > 0
    ensures t < n
    decreases k
  {
    if k == 0 then 0 else var t := Turn(k - 1, n); if t + 1 == n then 0 else t + 1
  }

  /** It is the remainder of `k` by `n`: after `q` whole rounds. */
  lemma {:induction false} TurnRounds(k: nat, n: nat) returns (q: nat)
    requires n > 0
    ensures k == q * n + Turn(k, n)
  {
    if k == 0 { return 0; }
    q := TurnRounds(k - 1, n);
    if Turn(k - 1, n) + 1 == n {
      assert (q + 1) * n == q * n + n;
      q := q + 1;
    }
  }

  lemma NextInTurn(i: nat, n: nat)
    requires i < n
    ensures (i + 1) % n == if i + 1 == n then 0 else i + 1
  {
  }

  lemma ApplyTurns(p: Pool, e: Event, k: nat)
    requires |p.workers| > 0 && p.nextIndex == Turn(k, |p.workers|)
    ensures |Apply(p, e).workers| == |p.workers|
    ensures Apply(p, e).nextIndex == Turn(if e.Submit? then k + 1 else k, |p.workers|)
  {
    NextInTurn(p.nextIndex, |p.workers|);
  }

  lemma {:induction false} NextIndexTurns(p: Pool, es: seq<Event>, k: nat)
    requires |p.workers| > 0 && p.nextIndex == Turn(k, |p.workers|)
    ensures |Run(p, es).workers| == |p.workers|
    ensures Run(p, es).nextIndex == Turn(k + Submits(es), |p.workers|)
    decreases |es|
  {
    if es != [] {
      ApplyTurns(p, es[0], k);
      NextIndexTurns(Apply(p, es[0]), es[1..], if es[0].Submit? then k + 1 else k);
    }
  }

  lemma PushEffect(w: Worker, t: Task)
    ensures var more := if w.running then [t] else [];
            Push(w, t).accepted == w.accepted + more && Push(w, t).queue == w.queue + more
  {
  }

  lemma SubmitEffect(p: Pool, id: int)
    requires p.nextIndex < |p.workers|
    ensures var u := Apply(p, Submit(id)); var k := p.nextIndex;
            && |u.workers| == |p.workers| && u.workers[k] == Push(p.workers[k], Task(id, None))
            && forall i | 0 <= i < |p.workers| && i != k :: u.workers[i] == p.workers[i]
  {
  }

  /** Unkeyed tasks go round: the k-th goes to worker k modulo the pool size (see TurnRounds), at the end
      of its queue if it is running, and to no other. */
  lemma SubmitGoesRound(threads: nat, es: seq<Event>, id: int)
    ensures var p := Run(NewPool(threads), es); var k := Turn(Submits(es), PoolSize(threads));
            && |p.workers| == PoolSize(threads) && p.nextIndex == k
            && var u := Apply(p, Submit(id)); var more := if p.workers[k].running then [Task(id, None)] else [];
               && |u.workers| == |p.workers|
               && (forall i | 0 <= i < |p.workers| && i != k :: u.workers[i] == p.workers[i])
               && u.workers[k].accepted == p.workers[k].accepted + more
               && u.workers[k].queue == p.workers[k].queue + more
  {
    NextIndexTurns(NewPool(threads), es, 0);
    var p := Run(NewPool(threads), es);
    SubmitEffect(p, id);
    PushEffect(p.workers[p.nextIndex], Task(id, None));
  }

  /** What a worker does when left alone: finish, take, finish, take. */
  function WorkOff(w: Worker, rounds: nat): Worker
    decreases rounds
  {
    if rounds == 0 then w else WorkOff(Take(Finish(w)), rounds - 1)
  }

  /** A stopped worker left alone runs everything it has accepted and then leaves. */
  lemma {:induction false} StoppedWorkerFinishes(w: Worker)
    requires Valid(w) && w.started
    ensures var u := WorkOff(Stop(w), |w.queue| + 1); u.exited && u.accepted == w.accepted && u.executed == w.accepted
    decreases |w.queue|
  {
    WorkerKeeps(w, Task(0, None));
    var v := Take(Finish(Stop(w)));
    WorkerKeeps(Stop(w), Task(0, None));
    WorkerKeeps(Finish(Stop(w)), Task(0, None));
    if w.queue == [] || w.exited {
      assert WorkOff(v, 0) == v;
    } else {
      StoppedWorkerFinishes(v);
      assert Stop(v) == v;
    }
  }

  // ---------------------------------------------------------------- the objects

  class WorkerThread {
    var running: bool
    var tasks: seq<Task>
    var started: bool
    var exited: bool
    var current: Option<Task>
    ghost var accepted: seq<Task>
    ghost var executed: seq<Task>

    ghost function View(): Worker
      reads this
    {
      Worker(running, started, exited, tasks, current, accepted, executed)
    }

    constructor ()
      ensures View() == FRESH
    {
      running, tasks, started, exited, current, accepted, executed := false, [], false, false, None, [], [];
    }

    method StartThread()
      requires !started
      modifies this
      ensures View() == Start(old(View())) && running && started
    {
      running, started := true, true;
    }

    method RequestStop()
      modifies this
      ensures View() == Stop(old(View())) && !running && tasks == old(tasks)
    {
      running := false;
    }

    method PushTask(t: Task)
      modifies this
      ensures View() == Push(old(View()), t)
      ensures tasks == if running then old(tasks) + [t] else old(tasks)
    {
      if !running { return; }
      tasks := tasks + [t];
      accepted := accepted + [t];
    }

    /** One pass of the worker's loop under the mutex, when it is not waiting. */
    method NextTask() returns (left: bool)
      requires started && !exited && current == None && (tasks != [] || !running)
      modifies this
      ensures View() == Take(old(View()))
      ensures left <==> exited
    {
      if !running && tasks == [] {
        exited := true;
        return true;
      }
      current := Some(tasks[0]);
      tasks := tasks[1..];
      return false;
    }

    method Execute()
      requires current.Some?
      modifies this
      ensures View() == Finish(old(View()))
    {
      executed := executed + [current.value];
      current := None;
    }
  }

  class ThreadPool {
    const workers: seq<WorkerThread>
    var nextIndex: nat
    ghost var log: seq<Task>

    ghost predicate Valid()
      reads this
    {
      && nextIndex < |workers|
      && forall i, j | 0 <= i < |workers| && 0 <= j < |workers| && workers[i] == workers[j] :: i == j
    }

    ghost function View(): Pool
      reads this, workers
    {
      Pool(seq(|workers|, i requires 0 <= i < |workers| reads workers => workers[i].View()), nextIndex, log)
    }

    constructor (threads: nat)
      ensures Valid() && View() == NewPool(threads)
    {
      var made: seq<WorkerThread> := [];
      for i := 0 to PoolSize(threads)
        invariant |made| == i && forall j | 0 <= j < i :: fresh(made[j]) && made[j].View() == FRESH
        invariant forall j, k | 0 <= j < i && 0 <= k < i && made[j] == made[k] :: j == k
      {
        var w := new WorkerThread();
        made := made + [w];
      }
      workers, nextIndex, log := made, 0, [];
    }

    method SubmitTask(id: int)
      requires Valid()
      modifies this, workers
      ensures Valid() && View() == Apply(old(View()), Submit(id))
    {
      var w := workers[nextIndex];
      if w.running { log := log + [Task(id, None)]; }
      w.PushTask(Task(id, None));
      nextIndex := (nextIndex + 1) % |workers|;
      assert View().workers == Apply(old(View()), Submit(id)).workers;
    }

    method SubmitTaskByKey(key: nat, id: int)
      requires Valid()
      modifies this, workers
      ensures Valid() && View() == Apply(old(View()), SubmitByKey(key, id))
    {
      var w := workers[key % |workers|];
      if w.running { log := log + [Task(id, Some(key))]; }
      w.PushTask(Task(id, Some(key)));
      assert View().workers == Apply(old(View()), SubmitByKey(key, id)).workers;
    }
  }
}
