/** Starting and stopping the channel server: two flags raced over by any number of calls.

    Every event is one atomic operation of one call, so a run is any interleaving of any number of
    TryBeginRun and RequestStop calls. The mutex of RequestStop is not modelled: it only excludes
    some of these interleavings. */
module StartStop {

  /** Where a pending call stands: TryBeginRun after its exchange, TryBeginRun before its clearing
      store, RequestStop between its two stores. */
  datatype Pending = ToLoad | ToClear | ToStop

  /** `began`: the calls of TryBeginRun that answered true. */
  datatype State = State(running: bool, stopRequested: bool, calls: map<int, Pending>, began: set<int>)

  const START: State := State(false, false, map[], {})

  datatype Event = TryBegin(tid: int) | Request(tid: int) | Next(tid: int)

  function Apply(s: State, e: Event): State {
    match e
    case TryBegin(tid) =>
      if tid in s.calls || tid in s.began || s.running then s
      else s.(running := true, calls := s.calls[tid := ToLoad])
    case Request(tid) =>
      if tid in s.calls || tid in s.began then s else s.(stopRequested := true, calls := s.calls[tid := ToStop])
    case Next(tid) =>
      if tid !in s.calls then s
      else match s.calls[tid]
        case ToLoad =>
          if s.stopRequested then s.(calls := s.calls[tid := ToClear])
          else s.(calls := s.calls - {tid}, began := s.began + {tid})
        case ToClear => s.(running := false, calls := s.calls - {tid})
        case ToStop => s.(running := false, calls := s.calls - {tid})
  }

  function Run(s: State, es: seq<Event>): State
    decreases |es|
  {
    if es == [] then s else Run(Apply(s, es[0]), es[1..])
  }

  lemma RunTwo(s: State, a: Event, b: Event)
    ensures Run(s, [a, b]) == Apply(Apply(s, a), b)
  {
    assert [a, b][1..] == [b] && [b][1..] == [];
    assert Run(Apply(s, a), [b]) == Run(Apply(Apply(s, a), b), []);
  }

  lemma RunThree(s: State, a: Event, b: Event, c: Event)
    ensures Run(s, [a, b, c]) == Apply(Apply(Apply(s, a), b), c)
  {
    assert [a, b, c][1..] == [b, c];
    RunTwo(Apply(s, a), b, c);
  }

  // ---------------------------------------------------------------- the two calls, uninterrupted

  class RunFlags {
    var running: bool
    var stopRequested: bool
    ghost var calls: map<int, Pending>
    ghost var began: set<int>

    ghost function View(): State
      reads this
    {
      State(running, stopRequested, calls, began)
    }

    constructor ()
      ensures View() == START
    {
      running, stopRequested, calls, began := false, false, map[], {};
    }

    /** A call of its own: its two stores one after the other. */
    method RequestStop(ghost tid: int)
      requires tid !in calls && tid !in began
      modifies this
      ensures View() == Run(old(View()), [Request(tid), Next(tid)])
      ensures stopRequested && !running
    {
      RunTwo(View(), Request(tid), Next(tid));
      assert calls[tid := ToStop] - {tid} == calls;
      stopRequested := true;
      running := false;
    }

    /** Exchange, load and clearing store; a call that has returned takes no further step. */
    method TryBeginRun(ghost tid: int) returns (ok: bool)
      requires tid !in calls && tid !in began
      modifies this
      ensures View() == Run(old(View()), [TryBegin(tid), Next(tid), Next(tid)])
      ensures ok <==> tid in began
      ensures ok <==> !old(running) && !old(stopRequested)
    {
      RunThree(View(), TryBegin(tid), Next(tid), Next(tid));
      assert calls[tid := ToLoad] - {tid} == calls && calls[tid := ToLoad][tid := ToClear] - {tid} == calls;
      var was := running;
      running := true;
      if was { return false; }
      if stopRequested {
        running := false;
        return false;
      }
      began := began + {tid};
      return true;
    }
  }

  // ---------------------------------------------------------------- every interleaving

  /** A call that has yet to clear `running`, or to find out that it has to. */
  ghost predicate ClearPending(s: State) { s.calls != map[] }

  /** Calls that won the exchange and have not seen a stop. */
  function Winners(s: State): set<int> { s.began + set t | t in s.calls && s.calls[t] == ToLoad }

  ghost predicate AtMostOne(xs: set<int>) { forall x, y | x in xs && y in xs :: x == y }

  ghost predicate Inv(s: State) {
    && (s.stopRequested && s.running ==> ClearPending(s))
    && (!s.stopRequested ==> (forall t | t in s.calls :: s.calls[t] == ToLoad)
                             && (s.running <==> Winners(s) != {}) && AtMostOne(Winners(s)))
    && AtMostOne(s.began)
  }

  lemma ApplyKeeps(s: State, e: Event)
    requires Inv(s)
    ensures Inv(Apply(s, e))
  {
    var u := Apply(s, e);
    match e
    case TryBegin(tid) =>
      if u != s {
        assert tid in u.calls && tid in Winners(u);
        if !s.stopRequested { assert Winners(u) == Winners(s) + {tid}; }
      }
    case Request(tid) =>
      if u != s { assert tid in u.calls; assert s.began <= Winners(s); }
    case Next(tid) =>
      if tid in s.calls && !s.stopRequested { assert Winners(u) == Winners(s); }
      if tid in s.calls && s.stopRequested && s.calls[tid] == ToLoad { assert tid in u.calls; }
  }

  /** A requested stop is never taken back, and no call begins a run after it. */
  lemma {:induction false} EveryRunKeeps(s: State, es: seq<Event>)
    requires Inv(s)
    ensures Inv(Run(s, es))
    ensures s.stopRequested ==> Run(s, es).stopRequested && Run(s, es).began == s.began
    decreases |es|
  {
    if es != [] {
      ApplyKeeps(s, es[0]);
      EveryRunKeeps(Apply(s, es[0]), es[1..]);
    }
  }

  /** Once all calls have returned, a requested stop has left the server not running. */
  lemma StopPrevails(es: seq<Event>)
    requires Run(START, es).stopRequested && Run(START, es).calls == map[]
    ensures !Run(START, es).running
  {
    EveryRunKeeps(START, es);
  }

  /** However many threads try, at most one call begins a run. */
  lemma BeginsOnce(es: seq<Event>, a: int, b: int)
    requires a in Run(START, es).began && b in Run(START, es).began
    ensures a == b
  {
    EveryRunKeeps(START, es);
  }

  lemma {:induction false} RunSplits(s: State, before: seq<Event>, after: seq<Event>)
    ensures Run(s, before + after) == Run(Run(s, before), after)
    decreases |before|
  {
    if before == [] {
      assert before + after == after;
    } else {
      assert (before + after)[1..] == before[1..] + after;
      RunSplits(Apply(s, before[0]), before[1..], after);
    }
  }

  /** A stop is for good: no call begins a run after it, and the server is not running whenever
      no call is pending. */
  lemma NothingBeginsAfterStop(before: seq<Event>, after: seq<Event>)
    requires Run(START, before).stopRequested
    ensures Run(START, before + after).began == Run(START, before).began
    ensures Run(START, before + after).calls == map[] ==> !Run(START, before + after).running
  {
    RunSplits(START, before, after);
    EveryRunKeeps(START, before);
    EveryRunKeeps(Run(START, before), after);
  }
}
