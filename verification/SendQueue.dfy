/** The sending side of a session: a queue filled by any number of threads, emptied by the game
    loop when the socket is writable, with the writable event armed only while needed.

    `send` may take any part of what it is offered. Each event below is one locked section or one
    epoll call; a run is any sequence of events.
 */
module SendQueue {
  import opened Framing

  /** What one call of `send` answers. */
  datatype Outcome = Sent(count: nat) | Interrupted | WouldBlock | Broken

  /** The queue with the offset into its front packet. */
  datatype Queue = Queue(packets: seq<seq<Byte>>, offset: nat)

  datatype Flushed = Flushed(queue: Queue, bytes: seq<Byte>, ok: bool)

  ghost predicate ValidQueue(q: Queue) {
    && (forall p | p in q.packets :: p != [])
    && (if q.packets == [] then q.offset == 0 else q.offset < |q.packets[0]|)
  }

  /** Bytes accepted but not yet written. */
  function Pending(q: Queue): seq<Byte>
    requires ValidQueue(q)
  {
    if q.packets == [] then [] else q.packets[0][q.offset..] + Flatten(q.packets[1..])
  }

  function TakenBy(q: Queue, n: nat): nat
    requires ValidQueue(q) && q.packets != []
  {
    if n < |q.packets[0]| - q.offset then n else |q.packets[0]| - q.offset
  }

  function Advance(q: Queue, k: nat): (r: Queue)
    requires ValidQueue(q) && q.packets != [] && k <= |q.packets[0]| - q.offset
    ensures ValidQueue(r)
  {
    if q.offset + k == |q.packets[0]| then
      assert forall p | p in q.packets[1..] :: p in q.packets;
      assert |q.packets| > 1 ==> q.packets[1] in q.packets;
      Queue(q.packets[1..], 0)
    else Queue(q.packets, q.offset + k)
  }

  function Behind(bytes: seq<Byte>, f: Flushed): Flushed { f.(bytes := bytes + f.bytes) }

  lemma BehindTwice(a: seq<Byte>, b: seq<Byte>, f: Flushed)
    ensures Behind(a, Behind(b, f)) == Behind(a + b, f) && Behind([], f) == f
  {
    assert a + (b + f.bytes) == (a + b) + f.bytes && [] + f.bytes == f.bytes;
  }

  /** The bytes one successful `send` takes from the front packet. */
  function Part(q: Queue, k: nat): seq<Byte>
    requires ValidQueue(q) && q.packets != [] && k <= |q.packets[0]| - q.offset
  {
    q.packets[0][q.offset..q.offset + k]
  }

  /** FlushSend: outcomes that run out read as WouldBlock. */
  function Flush(q: Queue, outcomes: seq<Outcome>): Flushed
    requires ValidQueue(q)
    decreases |outcomes|
  {
    if q.packets == [] || outcomes == [] then Flushed(q, [], true)
    else match outcomes[0]
      case Interrupted => Flush(q, outcomes[1..])
      case WouldBlock => Flushed(q, [], true)
      case Broken => Flushed(q, [], false)
      case Sent(n) =>
        if n == 0 then Flushed(q, [], false)
        else
          var k := TakenBy(q, n);
          Behind(Part(q, k), Flush(Advance(q, k), outcomes[1..]))
  }

  /** Whatever `send` answers, what is written now plus what stays pending is what was pending. */
  lemma {:induction false} FlushAccounts(q: Queue, outcomes: seq<Outcome>)
    requires ValidQueue(q)
    ensures var f := Flush(q, outcomes); ValidQueue(f.queue) && f.bytes + Pending(f.queue) == Pending(q)
    decreases |outcomes|
  {
    if q.packets != [] && outcomes != [] {
      match outcomes[0]
      case Interrupted => FlushAccounts(q, outcomes[1..]);
      case Sent(n) =>
        if n != 0 {
          var k := TakenBy(q, n);
          var r := Advance(q, k);
          FlushAccounts(r, outcomes[1..]);
          AdvanceAccounts(q, k);
          var f, head := Flush(r, outcomes[1..]), Part(q, k);
          assert (head + f.bytes) + Pending(f.queue) == head + (f.bytes + Pending(f.queue));
        }
      case _ =>
    }
  }

  lemma PendingAtStart(q: Queue)
    requires ValidQueue(q) && q.offset == 0
    ensures Pending(q) == Flatten(q.packets)
  {
    if q.packets != [] { assert q.packets[0][0..] == q.packets[0]; }
  }

  lemma Cut(p: seq<Byte>, from: nat, k: nat, more: seq<Byte>)
    requires from + k <= |p|
    ensures p[from..from + k] + (p[from + k..] + more) == p[from..] + more
  {
    assert p[from..from + k] + p[from + k..] == p[from..];
  }

  lemma FrontGone(q: Queue, k: nat)
    requires ValidQueue(q) && q.packets != [] && q.offset + k == |q.packets[0]|
    ensures Part(q, k) == q.packets[0][q.offset..] && Pending(Advance(q, k)) == Flatten(q.packets[1..])
  {
    PendingAtStart(Advance(q, k));
  }

  lemma AdvanceAccounts(q: Queue, k: nat)
    requires ValidQueue(q) && q.packets != [] && k <= |q.packets[0]| - q.offset
    ensures Part(q, k) + Pending(Advance(q, k)) == Pending(q)
  {
    if q.offset + k == |q.packets[0]| {
      FrontGone(q, k);
    } else {
      Cut(q.packets[0], q.offset, k, Flatten(q.packets[1..]));
    }
  }

  lemma {:induction false} PendingAppend(ps: seq<seq<Byte>>, p: seq<Byte>)
    ensures Flatten(ps + [p]) == Flatten(ps) + p
  {
    if ps == [] {
      assert ps + [p] == [p] && [p][1..] == [];
      assert Flatten([p]) == p + [];
    } else {
      assert (ps + [p])[1..] == ps[1..] + [p];
      PendingAppend(ps[1..], p);
    }
  }

  /** A socket that goes on taking bytes empties the queue. */
  lemma {:induction false} FlushDrains(q: Queue, outcomes: seq<Outcome>)
    requires ValidQueue(q) && |Pending(q)| <= |outcomes| && forall o | o in outcomes :: o.Sent? && o.count > 0
    ensures Flush(q, outcomes) == Flushed(Queue([], 0), Pending(q), true)
    decreases |outcomes|
  {
    if q.packets != [] {
      assert outcomes[0] in outcomes;
      var k := TakenBy(q, outcomes[0].count);
      AdvanceAccounts(q, k);
      assert |Pending(q)| == k + |Pending(Advance(q, k))|;
      FlushDrains(Advance(q, k), outcomes[1..]);
    }
  }

  /** A `send` that takes `n` of the bytes offered puts exactly those on the wire, and the queue goes on
      behind them. */
  lemma OneSend(q: Queue, n: nat)
    requires ValidQueue(q) && q.packets != [] && 0 < n <= |q.packets[0]| - q.offset
    ensures var f := Flush(q, [Sent(n)]);
            && f.bytes == q.packets[0][q.offset..q.offset + n] && f.ok
            && f.queue == if q.offset + n == |q.packets[0]| then Queue(q.packets[1..], 0)
                          else Queue(q.packets, q.offset + n)
  {
    assert [Sent(n)][1..] == [];
    assert Part(q, n) + [] == Part(q, n);
  }

  /** The operating system never takes more than it is offered: the rest of the front packet. */
  ghost predicate TakesWhatIsOffered(q: Queue, outcomes: seq<Outcome>)
    requires ValidQueue(q)
    decreases |outcomes|
  {
    q.packets == [] || outcomes == []
    || match outcomes[0]
       case Interrupted => TakesWhatIsOffered(q, outcomes[1..])
       case Sent(n) =>
         n <= |q.packets[0]| - q.offset && (n == 0 || TakesWhatIsOffered(Advance(q, n), outcomes[1..]))
       case _ => true
  }

  /** How many bytes go out of `waiting`, going by the answers alone: their sum, up to the first
      answer that ends the loop. */
  function BytesTaken(waiting: nat, outcomes: seq<Outcome>): nat
    decreases |outcomes|
  {
    if waiting == 0 || outcomes == [] then 0
    else match outcomes[0]
      case Interrupted => BytesTaken(waiting, outcomes[1..])
      case Sent(n) => if n == 0 || n > waiting then 0 else n + BytesTaken(waiting - n, outcomes[1..])
      case _ => 0
  }

  /** Whether the connection survives: no error and no empty answer before all is out. */
  predicate Survives(waiting: nat, outcomes: seq<Outcome>)
    decreases |outcomes|
  {
    waiting == 0 || outcomes == []
    || match outcomes[0]
       case Interrupted => Survives(waiting, outcomes[1..])
       case WouldBlock => true
       case Broken => false
       case Sent(n) => n != 0 && (n > waiting || Survives(waiting - n, outcomes[1..]))
  }

  /** The loop over packets and offsets is a plain cut of the waiting bytes: what goes out is the first
      bytes waiting, as many as the answers add up to. */
  lemma {:induction false} FlushTakesTheSum(q: Queue, outcomes: seq<Outcome>)
    requires ValidQueue(q) && TakesWhatIsOffered(q, outcomes)
    ensures var f := Flush(q, outcomes); var n := BytesTaken(|Pending(q)|, outcomes);
            n <= |Pending(q)| && f.bytes == Pending(q)[..n] && f.ok == Survives(|Pending(q)|, outcomes)
    decreases |outcomes|
  {
    if q.packets != [] && outcomes != [] {
      assert Pending(q) != [];
      match outcomes[0]
      case Interrupted => FlushTakesTheSum(q, outcomes[1..]);
      case Sent(n) =>
        if n != 0 {
          var r := Advance(q, n);
          AdvanceAccounts(q, n);
          FlushTakesTheSum(r, outcomes[1..]);
          PrefixOfSum(Part(q, n), Pending(r), BytesTaken(|Pending(r)|, outcomes[1..]));
        }
      case _ =>
    }
  }

  lemma PrefixOfSum(a: seq<Byte>, b: seq<Byte>, n: nat)
    requires n <= |b|
    ensures (a + b)[..|a| + n] == a + b[..n]
  {
  }

  /** One pass of the send loop, seen from the bytes already out. */
  lemma FlushOnce(q: Queue, outcomes: seq<Outcome>, i: nat, bytes: seq<Byte>)
    requires ValidQueue(q) && q.packets != [] && i < |outcomes|
    ensures outcomes[i].Interrupted? ==> Flush(q, outcomes[i..]) == Flush(q, outcomes[i + 1..])
    ensures outcomes[i].WouldBlock? ==> Behind(bytes, Flush(q, outcomes[i..])) == Flushed(q, bytes, true)
    ensures outcomes[i].Broken? || outcomes[i] == Sent(0)
            ==> Behind(bytes, Flush(q, outcomes[i..])) == Flushed(q, bytes, false)
    ensures outcomes[i].Sent? && outcomes[i].count > 0 ==>
              var k := TakenBy(q, outcomes[i].count);
              Behind(bytes, Flush(q, outcomes[i..]))
                  == Behind(bytes + Part(q, k), Flush(Advance(q, k), outcomes[i + 1..]))
  {
    assert outcomes[i..][0] == outcomes[i] && outcomes[i..][1..] == outcomes[i + 1..];
    assert bytes + [] == bytes;
    if outcomes[i].Sent? {
      var k := TakenBy(q, outcomes[i].count);
      BehindTwice(bytes, Part(q, k), Flush(Advance(q, k), outcomes[i + 1..]));
    }
  }

  // ---------------------------------------------------------------- the two locked methods

  class SendSide {
    var sendQueue: seq<seq<Byte>>
    var sendOffset: nat
    var closing: bool

    ghost function View(): Queue
      reads this
    {
      Queue(sendQueue, sendOffset)
    }

    constructor ()
      ensures View() == Queue([], 0) && !closing
    {
      sendQueue, sendOffset, closing := [], 0, false;
    }

    /** Whether the caller has to arm the writable event; an empty packet is refused, and so is any
        on a closing session. */
    method EnqueueSend(packet: seq<Byte>) returns (accepted: bool, needEnableWrite: bool)
      requires ValidQueue(View())
      modifies this
      ensures accepted <==> packet != [] && !closing
      ensures closing == old(closing)
      ensures needEnableWrite <==> accepted && old(sendQueue) == []
      ensures View() == if accepted then Queue(old(sendQueue) + [packet], old(sendOffset)) else old(View())
      ensures ValidQueue(View())
      ensures Pending(View()) == Pending(old(View())) + if accepted then packet else []
    {
      PendingGrows(View(), packet);
      if packet == [] || closing { return false, false; }
      needEnableWrite := sendQueue == [];
      sendQueue := sendQueue + [packet];
      accepted := true;
    }

    /** What the send loop does after `n` bytes have gone out, as far as the front packet had them. */
    method TakeSent(n: nat) returns (part: seq<Byte>)
      requires ValidQueue(View()) && sendQueue != []
      modifies this
      ensures View() == Advance(old(View()), TakenBy(old(View()), n)) && ValidQueue(View()) && closing == old(closing)
      ensures part == Part(old(View()), TakenBy(old(View()), n))
    {
      var front := sendQueue[0];
      var sent := if n < |front| - sendOffset then n else |front| - sendOffset;
      part := front[sendOffset..sendOffset + sent];
      sendOffset := sendOffset + sent;
      if sendOffset == |front| {
        sendQueue, sendOffset := sendQueue[1..], 0;
      }
    }

    /** The send loop, unless the session is closing. `bytes` is what went out on the wire. */
    method FlushSend(outcomes: seq<Outcome>) returns (ok: bool, bytes: seq<Byte>)
      requires ValidQueue(View())
      modifies this
      ensures closing == old(closing)
      ensures Flushed(View(), bytes, ok)
              == if closing then Flushed(old(View()), [], false) else Flush(old(View()), outcomes)
    {
      bytes := [];
      if closing { return false, bytes; }
      var i := 0;
      BehindTwice([], [], Flush(View(), outcomes));
      assert outcomes[0..] == outcomes;
      while sendQueue != []
        invariant 0 <= i <= |outcomes| && ValidQueue(View()) && !closing && !old(closing)
        invariant Behind(bytes, Flush(View(), outcomes[i..])) == Flush(old(View()), outcomes)
        decreases |outcomes| - i
      {
        if i == |outcomes| {
          assert bytes + [] == bytes;
          return true, bytes;
        }
        ghost var q := View();
        FlushOnce(q, outcomes, i, bytes);
        match outcomes[i] {
          case Interrupted =>
          case WouldBlock => return true, bytes;
          case Broken => return false, bytes;
          case Sent(n) =>
            if n == 0 { return false, bytes; }
            var part := TakeSent(n);
            bytes := bytes + part;
        }
        i := i + 1;
      }
      assert bytes + [] == bytes;
      return true, bytes;
    }
  }

  lemma PendingGrows(q: Queue, packet: seq<Byte>)
    requires ValidQueue(q)
    ensures Pending(q) + [] == Pending(q)
    ensures packet != [] ==> ValidQueue(q.(packets := q.packets + [packet]))
                             && Pending(q.(packets := q.packets + [packet])) == Pending(q) + packet
  {
    if q.packets != [] {
      assert (q.packets + [packet])[1..] == q.packets[1..] + [packet];
      PendingAppend(q.packets[1..], packet);
    } else if packet != [] {
      assert (q.packets + [packet])[1..] == [];
      assert packet[0..] + [] == [] + packet;
    }
  }

  // ---------------------------------------------------------------- arming and disarming

  /** Where the game loop is inside OnSend. */
  datatype Sender = Idle | Flushing | ToDisable | ToRecheck | ToEnable

  /** `arming`: threads that found the queue empty and have not armed the event yet.
      `written` and `enqueued` are the histories of bytes sent and packets accepted. */
  datatype State = State(queue: Queue, armed: bool, arming: set<int>, sender: Sender, open: bool,
                         written: seq<Byte>, enqueued: seq<seq<Byte>>)

  const START: State := State(Queue([], 0), false, {}, Idle, true, [], [])

  datatype Event = Enqueue(tid: int, packet: seq<Byte>) | Arm(tid: int) | Wake(outcomes: seq<Outcome>) | SenderStep

  function Apply(s: State, e: Event): State
    requires ValidQueue(s.queue)
  {
    match e
    case Enqueue(tid, p) =>
      if p == [] || tid in s.arming then s
      else s.(queue := s.queue.(packets := s.queue.packets + [p]), enqueued := s.enqueued + [p],
              arming := if s.queue.packets == [] then s.arming + {tid} else s.arming)
    case Arm(tid) => if tid in s.arming then s.(armed := true, arming := s.arming - {tid}) else s
    case Wake(outcomes) =>
      if s.sender != Idle || !s.armed || !s.open then s
      else
        var f := Flush(s.queue, outcomes);
        s.(queue := f.queue, written := s.written + f.bytes, open := f.ok, sender := if f.ok then Flushing else Idle)
    case SenderStep =>
      match s.sender
      case Idle => s
      case Flushing => s.(sender := if s.queue.packets == [] then ToDisable else Idle)
      case ToDisable => s.(armed := false, sender := ToRecheck)
      case ToRecheck => s.(sender := if s.queue.packets == [] then Idle else ToEnable)
      case ToEnable => s.(armed := true, sender := Idle)
  }

  /** Waiting data always has someone or something that will wake the sender. */
  predicate NoLostWakeup(s: State) {
    s.open && s.queue.packets != [] ==>
      s.armed || s.arming != {} || s.sender == ToRecheck || s.sender == ToEnable
  }

  ghost predicate Inv(s: State) {
    && ValidQueue(s.queue)
    && s.written + Pending(s.queue) == Flatten(s.enqueued)
    && NoLostWakeup(s)
    && (s.sender == Flushing || s.sender == ToDisable ==> s.armed)
  }

  lemma EnqueueKeeps(s: State, tid: int, p: seq<Byte>)
    requires Inv(s)
    ensures Inv(Apply(s, Enqueue(tid, p)))
  {
    PendingGrows(s.queue, p);
    PendingAppend(s.enqueued, p);
    assert s.written + (Pending(s.queue) + p) == (s.written + Pending(s.queue)) + p;
  }

  lemma WakeKeeps(s: State, outcomes: seq<Outcome>)
    requires Inv(s)
    ensures Inv(Apply(s, Wake(outcomes)))
  {
    FlushAccounts(s.queue, outcomes);
    var f := Flush(s.queue, outcomes);
    assert (s.written + f.bytes) + Pending(f.queue) == s.written + (f.bytes + Pending(f.queue));
  }

  lemma ArmKeeps(s: State, e: Event)
    requires Inv(s) && (e.Arm? || e.SenderStep?)
    ensures Inv(Apply(s, e))
  {
  }

  lemma ApplyKeeps(s: State, e: Event)
    requires Inv(s)
    ensures Inv(Apply(s, e))
  {
    match e
    case Enqueue(tid, p) => EnqueueKeeps(s, tid, p);
    case Wake(outcomes) => WakeKeeps(s, outcomes);
    case _ => ArmKeeps(s, e);
  }

  ghost predicate Reaches(s: State, es: seq<Event>, t: State)
    decreases |es|
  {
    if es == [] then s == t else ValidQueue(s.queue) && Reaches(Apply(s, es[0]), es[1..], t)
  }

  /** Every interleaving accounts for every byte and never loses a wakeup. */
  lemma {:induction false} EveryRunKeeps(s: State, es: seq<Event>, t: State)
    requires Inv(s) && Reaches(s, es, t)
    ensures Inv(t)
    decreases |es|
  {
    if es != [] {
      ApplyKeeps(s, es[0]);
      EveryRunKeeps(Apply(s, es[0]), es[1..], t);
    }
  }

  /** When no thread is half-way, waiting data means the writable event is armed. */
  lemma QuietMeansArmed(es: seq<Event>, t: State)
    requires Reaches(START, es, t) && t.open && t.arming == {} && t.sender == Idle && t.queue.packets != []
    ensures t.armed
  {
    EveryRunKeeps(START, es, t);
  }

  /** A wake that empties the queue disarms the event, if nothing is enqueued meanwhile; one that
      leaves bytes waiting leaves it armed. Either way the loop is then at rest. */
  lemma WakeSettles(s: State, outcomes: seq<Outcome>)
    requires Inv(s) && s.open && s.armed && s.sender == Idle && Flush(s.queue, outcomes).ok
    ensures ValidQueue(Flush(s.queue, outcomes).queue)
    ensures var one := Apply(s, Wake(outcomes));
            var f := Flush(s.queue, outcomes);
            if f.queue.packets == [] then
              Apply(Apply(Apply(one, SenderStep), SenderStep), SenderStep)
              == s.(queue := f.queue, written := s.written + f.bytes, armed := false)
            else Apply(one, SenderStep) == s.(queue := f.queue, written := s.written + f.bytes)
  {
    FlushAccounts(s.queue, outcomes);
  }

  // ---------------------------------------------------------------- end to end

  lemma {:induction false} FlattenEncoded(ps: seq<Packet>, bytes: seq<seq<Byte>>)
    requires Sendable(ps) && |bytes| == |ps| && forall i | 0 <= i < |ps| :: bytes[i] == Encode(ps[i])
    ensures Flatten(bytes) == Stream(ps)
  {
    if ps != [] {
      FlattenEncoded(ps[1..], bytes[1..]);
    }
  }

  /** The packets a run has enqueued arrive in order and unchanged: any part of the written bytes,
      in any chunks, dispatches a prefix of them; all bytes written and received dispatch all. */
  lemma EndToEnd(es: seq<Event>, t: State, ps: seq<Packet>, chunks: seq<seq<Byte>>)
    requires Reaches(START, es, t)
    requires Sendable(ps) && |t.enqueued| == |ps| && forall i | 0 <= i < |ps| :: t.enqueued[i] == Encode(ps[i])
    requires Flatten(chunks) <= t.written
    ensures Feed([], chunks).ok && Feed([], chunks).packets <= ps
    ensures t.queue.packets == [] && Flatten(chunks) == t.written ==> Feed([], chunks).packets == ps
  {
    EveryRunKeeps(START, es, t);
    FlattenEncoded(ps, t.enqueued);
    PartialStream(ps, chunks);
  }
}
