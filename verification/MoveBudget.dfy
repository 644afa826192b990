/** Movement validation: a token bucket of distance, charged by elapsed time and drained by moves.

    Distances are exact reals. A request carries the square root the validator computes. */
module MoveBudget {
  import opened Common
  import opened Plane
  import opened RealFacts

  const SPEED_MARGIN: real := 1.1
  const DISTANCE_ERROR: real := 0.01
  const MAX_CHECK_TIME: real := 0.25

  datatype Budget = Budget(x: real, y: real, lastTime: real, available: real, initialized: bool)

  /** `speed` is the player's at the time; `moved` the distance asked for. */
  datatype Request = Request(now: real, speed: real, x: real, y: real, moved: real)

  predicate Measured(b: Budget, r: Request) { r.moved >= 0.0 && Square(r.moved) == Norm(r.x - b.x, r.y - b.y) }

  /** Distance earned at a speed over a time. */
  function Charge(speed: real, time: real): real { speed * time * SPEED_MARGIN }

  function Passed(b: Budget, now: real): real { ClampReal(now - b.lastTime, 0.0, MAX_CHECK_TIME) }

  function Recharged(b: Budget, r: Request): real {
    MinReal(Charge(r.speed, MAX_CHECK_TIME), b.available + Charge(r.speed, Passed(b, r.now)))
  }

  predicate Accepts(b: Budget, r: Request) {
    b.initialized && r.speed > 0.0 && r.moved <= Recharged(b, r) + DISTANCE_ERROR
  }

  /** What a request leaves behind, accepted or not. */
  function After(b: Budget, r: Request): Budget {
    if !b.initialized then b.(lastTime := r.now, available := 0.0, initialized := true)
    else if r.speed <= 0.0 then b
    else if Accepts(b, r) then Budget(r.x, r.y, r.now, MaxReal(0.0, Recharged(b, r) - r.moved), true)
    else b.(lastTime := r.now, available := Recharged(b, r))
  }

  lemma ChargeGrows(s: real, t: real, speed: real, time: real)
    requires 0.0 <= s <= speed && 0.0 <= t <= time
    ensures 0.0 <= Charge(s, t) <= Charge(speed, time)
  {
    assert 0.0 <= s * t <= speed * t <= speed * time;
  }

  lemma ChargeAdds(speed: real, a: real, b: real)
    ensures Charge(speed, a) + Charge(speed, b) == Charge(speed, a + b)
  {
  }

  class Validator {
    var xPos: real
    var yPos: real
    var lastTime: real
    var available: real
    var initialized: bool

    ghost function View(): Budget
      reads this
    {
      Budget(xPos, yPos, lastTime, available, initialized)
    }

    constructor (x: real, y: real)
      ensures View() == Budget(x, y, 0.0, 0.0, false)
    {
      xPos, yPos, lastTime, available, initialized := x, y, 0.0, 0.0, false;
    }

    method ResetMoveValidation(now: real)
      modifies this
      ensures View() == Reset(old(View()), now)
    {
      lastTime, available, initialized := now, 0.0, true;
    }

    /** The validator compares squares; the contract compares distances. */
    method TryApplyMove(r: Request) returns (ok: bool)
      requires available >= 0.0 && Measured(View(), r)
      modifies this
      ensures ok <==> Accepts(old(View()), r)
      ensures View() == After(old(View()), r) && available >= 0.0
    {
      if !initialized {
        lastTime, available, initialized := r.now, 0.0, true;
        return false;
      }
      if r.speed <= 0.0 { return false; }
      var passedSeconds := ClampReal(r.now - lastTime, 0.0, MAX_CHECK_TIME);
      ChargeGrows(0.0, 0.0, r.speed, passedSeconds);
      ChargeGrows(0.0, 0.0, r.speed, MAX_CHECK_TIME);
      available := MinReal(Charge(r.speed, MAX_CHECK_TIME), available + Charge(r.speed, passedSeconds));
      lastTime := r.now;
      var dx, dy := r.x - xPos, r.y - yPos;
      var allowed := available + DISTANCE_ERROR;
      SquareOrder(r.moved, allowed);
      if Norm(dx, dy) > Square(allowed) { return false; }
      available := MaxReal(0.0, available - r.moved);
      xPos, yPos := r.x, r.y;
      return true;
    }
  }

  // ---------------------------------------------------------------- one request, in numbers

  /** A request credits 1.1 times the speed for the time since the last one, at most a quarter second of
      it, to at most a quarter second's worth; an accepted move is then debited, a refused one is
      not, and the clock moves on either way. */
  lemma RequestEffect(b: Budget, r: Request)
    requires b.initialized && r.speed > 0.0
    ensures var passed := ClampReal(r.now - b.lastTime, 0.0, 0.25);
            var saved := MinReal(r.speed * 0.25 * 1.1, b.available + r.speed * passed * 1.1);
            && (Accepts(b, r) <==> r.moved <= saved + 0.01)
            && After(b, r) == if Accepts(b, r) then Budget(r.x, r.y, r.now, MaxReal(0.0, saved - r.moved), true)
                              else b.(lastTime := r.now, available := saved)
  {
  }

  /** The first request only starts the clock, and one without a speed changes nothing; neither is
      accepted. */
  lemma IdleRequestEffect(b: Budget, r: Request)
    requires !b.initialized || r.speed <= 0.0
    ensures !Accepts(b, r)
    ensures After(b, r) == if b.initialized then b else Budget(b.x, b.y, r.now, 0.0, true)
  {
  }

  // ---------------------------------------------------------------- which moves get through

  /** A move can be accepted at all, from some saved distance, exactly when it is no longer than a
      quarter second's charge and the tolerance. */
  lemma OneMoveLimit(b: Budget, r: Request)
    requires b.initialized && r.speed > 0.0
    ensures (exists saved: real :: saved >= 0.0 && Accepts(b.(available := saved), r))
            <==> r.moved <= Charge(r.speed, MAX_CHECK_TIME) + DISTANCE_ERROR
  {
    var full := Charge(r.speed, MAX_CHECK_TIME);
    ChargeGrows(0.0, 0.0, r.speed, MAX_CHECK_TIME);
    ChargeGrows(0.0, 0.0, r.speed, Passed(b, r.now));
    assert Recharged(b.(available := full), r) == full;
    if r.moved <= full + DISTANCE_ERROR { assert Accepts(b.(available := full), r); }
  }

  /** The longest pause in which a client can move at full speed and be accepted. */
  function LongestGap(speed: real): real
    requires speed > 0.0
  {
    0.275 + 0.01 / speed
  }

  /** A move at exactly the player's speed is accepted, whatever has been saved, exactly when no
      more than 0.275 seconds and the time of the tolerance have passed. */
  lemma FullSpeedAcceptedIff(b: Budget, r: Request)
    requires b.initialized && b.available >= 0.0 && r.speed > 0.0 && b.lastTime <= r.now
    requires r.moved == r.speed * (r.now - b.lastTime)
    ensures Accepts(b, r) <==> r.now - b.lastTime <= LongestGap(r.speed)
  {
    var gap := r.now - b.lastTime;
    ChargeGrows(r.speed, Passed(b, r.now), r.speed, MAX_CHECK_TIME);
    ChargeGrows(0.0, 0.0, r.speed, Passed(b, r.now));
    GapInDistance(r.speed, gap);
    Product(r.speed, gap);
    assert Charge(r.speed, gap) == SPEED_MARGIN * r.moved;
  }

  lemma GapInDistance(speed: real, gap: real)
    requires speed > 0.0
    ensures gap <= LongestGap(speed) <==> speed * gap <= Charge(speed, MAX_CHECK_TIME) + DISTANCE_ERROR
  {
    var e := DISTANCE_ERROR / speed;
    assert e * speed == DISTANCE_ERROR;
    var over := gap - LongestGap(speed);
    assert speed * over == speed * gap - Charge(speed, MAX_CHECK_TIME) - DISTANCE_ERROR;
    Product(speed, AbsReal(over));
    if speed * over == 0.0 { SameFactor(over, 0.0, speed); }
  }

  /** A client at full speed that reports after half a second is refused. */
  lemma LongPauseRefused()
    ensures var b := Budget(0.0, 0.0, 0.0, 0.0, true); var r := Request(0.5, 100.0, 50.0, 0.0, 50.0);
            Measured(b, r) && r.moved == r.speed * (r.now - b.lastTime) && !Accepts(b, r)
  {
  }

  // ---------------------------------------------------------------- runs

  function Run(b: Budget, rs: seq<Request>): Budget
    decreases |rs|
  {
    if rs == [] then b else Run(After(b, rs[0]), rs[1..])
  }

  function Accepted(b: Budget, rs: seq<Request>): nat
    decreases |rs|
  {
    if rs == [] then 0 else (if Accepts(b, rs[0]) then 1 else 0) + Accepted(After(b, rs[0]), rs[1..])
  }

  /** Total distance of the accepted moves. */
  function Travelled(b: Budget, rs: seq<Request>): real
    decreases |rs|
  {
    if rs == [] then 0.0 else (if Accepts(b, rs[0]) then rs[0].moved else 0.0) + Travelled(After(b, rs[0]), rs[1..])
  }

  /** Requests as a run sees them: measured from where the player stands, by a clock that does not
      go back, at no more than a top speed. */
  predicate Proper(b: Budget, rs: seq<Request>, top: real)
    decreases |rs|
  {
    rs == []
    || (Measured(b, rs[0]) && b.lastTime <= rs[0].now && rs[0].speed <= top && Proper(After(b, rs[0]), rs[1..], top))
  }

  /** At or below the player's speed, and not too long after the last report. */
  predicate KeepsPace(b: Budget, r: Request) {
    r.speed > 0.0 && b.lastTime <= r.now && r.now - b.lastTime <= LongestGap(r.speed)
    && r.moved <= r.speed * (r.now - b.lastTime)
  }

  predicate Steady(b: Budget, rs: seq<Request>)
    decreases |rs|
  {
    rs == [] || (KeepsPace(b, rs[0]) && Steady(After(b, rs[0]), rs[1..]))
  }

  lemma PaceIsAccepted(b: Budget, r: Request)
    requires b.initialized && b.available >= 0.0 && KeepsPace(b, r)
    ensures Accepts(b, r)
  {
    FullSpeedAcceptedIff(b, r.(moved := r.speed * (r.now - b.lastTime)));
  }

  /** A client that keeps pace is never refused, over any run from a reset on. */
  lemma {:induction false} SteadyClientNeverRefused(b: Budget, rs: seq<Request>)
    requires b.initialized && b.available >= 0.0 && Steady(b, rs)
    ensures Accepted(b, rs) == |rs|
    decreases |rs|
  {
    if rs != [] {
      PaceIsAccepted(b, rs[0]);
      SteadyClientNeverRefused(After(b, rs[0]), rs[1..]);
    }
  }

  lemma OneRequest(b: Budget, r: Request, top: real)
    requires b.initialized && b.available >= 0.0 && Measured(b, r)
    requires b.lastTime <= r.now && r.speed <= top && top >= 0.0
    ensures var a := After(b, r);
            && a.initialized && a.available >= 0.0 && b.lastTime <= a.lastTime
            && a.available + (if Accepts(b, r) then r.moved - DISTANCE_ERROR else 0.0)
               <= b.available + Charge(top, a.lastTime - b.lastTime)
  {
    var a := After(b, r);
    ChargeGrows(0.0, 0.0, top, a.lastTime - b.lastTime);
    if r.speed > 0.0 {
      ChargeGrows(r.speed, Passed(b, r.now), top, r.now - b.lastTime);
      ChargeGrows(0.0, 0.0, r.speed, MAX_CHECK_TIME);
    }
  }

  /** What the elapsed time and the tolerances allow over a run. */
  function Limit(b: Budget, rs: seq<Request>, top: real): real {
    Charge(top, Run(b, rs).lastTime - b.lastTime) + DISTANCE_ERROR * Accepted(b, rs) as real
  }

  lemma LimitInNumbers(b: Budget, rs: seq<Request>, top: real)
    ensures Limit(b, rs, top) == top * (Run(b, rs).lastTime - b.lastTime) * 1.1 + 0.01 * Accepted(b, rs) as real
  {
  }

  lemma {:induction false} BudgetBalances(b: Budget, rs: seq<Request>, top: real)
    requires b.initialized && b.available >= 0.0 && top >= 0.0 && Proper(b, rs, top)
    ensures var end := Run(b, rs);
            && b.lastTime <= end.lastTime && end.available >= 0.0
            && Travelled(b, rs) + end.available
               <= b.available + Limit(b, rs, top)
    decreases |rs|
  {
    if rs != [] {
      var a := After(b, rs[0]);
      OneRequest(b, rs[0], top);
      BudgetBalances(a, rs[1..], top);
      ChargeAdds(top, a.lastTime - b.lastTime, Run(b, rs).lastTime - a.lastTime);
    }
  }

  // ---------------------------------------------------------------- straight-line displacement

  lemma {:induction false} DisplacementBounded(b: Budget, rs: seq<Request>, top: real, x0: real, y0: real, before: real)
    requires Proper(b, rs, top) && before >= 0.0 && Norm(b.x - x0, b.y - y0) <= Square(before)
    ensures var end := Run(b, rs);
            Travelled(b, rs) >= 0.0 && Norm(end.x - x0, end.y - y0) <= Square(before + Travelled(b, rs))
    decreases |rs|
  {
    if rs != [] {
      var r, a := rs[0], After(b, rs[0]);
      if Accepts(b, r) {
        TriangleInequality(b.x - x0, b.y - y0, r.x - b.x, r.y - b.y, before, r.moved);
        assert (b.x - x0) + (r.x - b.x) == r.x - x0 && (b.y - y0) + (r.y - b.y) == r.y - y0;
        DisplacementBounded(a, rs[1..], top, x0, y0, before + r.moved);
      } else {
        DisplacementBounded(a, rs[1..], top, x0, y0, before);
      }
    }
  }

  function Reset(b: Budget, now: real): Budget { b.(lastTime := now, available := 0.0, initialized := true) }

  lemma WithinSquare(n: real, t: real, limit: real)
    requires 0.0 <= t <= limit && n <= Square(t)
    ensures n <= Square(limit)
  {
    SquareOrder(t, limit);
  }

  /** From a reset on, however requests are timed and whichever are refused: the accepted moves add
      up to at most the charge of the elapsed time and one tolerance each, and the player gets no
      further than that from where the reset found them: whoever is then within `away` of a point
      stays within `away` and that limit of it. */
  lemma SpeedLimitHolds(start: Budget, now: real, rs: seq<Request>, top: real, x0: real, y0: real, away: real)
    requires top >= 0.0 && Proper(Reset(start, now), rs, top)
    requires away >= 0.0 && Norm(start.x - x0, start.y - y0) <= Square(away)
    ensures var b := Reset(start, now); var end := Run(b, rs);
            && 0.0 <= Travelled(b, rs) <= Limit(b, rs, top)
            && Norm(end.x - x0, end.y - y0) <= Square(away + Limit(b, rs, top))
  {
    var b := Reset(start, now);
    BudgetBalances(b, rs, top);
    DisplacementBounded(b, rs, top, x0, y0, away);
    WithinSquare(Norm(Run(b, rs).x - x0, Run(b, rs).y - y0), away + Travelled(b, rs), away + Limit(b, rs, top));
  }
}
