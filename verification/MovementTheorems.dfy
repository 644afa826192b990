/** Falling out, tunnelling and jump height: the promises of the platform physics over whole runs. */
module MovementTheorems {
  import opened Common
  import opened MovementPhysics
  import opened MovementRuns
  import opened RealFacts

  // ---------------------------------------------------------------- which steps sweep

  predicate Grabs(m: Map, b: Body, t: Tick) {
    var horizontal, vertical := ClampInt(t.input.horizontal, -1, 1), ClampInt(t.input.vertical, -1, 1);
    t.dt > 0.0 && Prepare(m, b, horizontal, vertical, t.input.jump, t.dt).mode == Climbing
  }

  /** The airborne body as it enters the sweep: only timer, facing and vx have changed. */
  function Flying(b: Body, t: Tick): Body {
    var horizontal := ClampInt(t.input.horizontal, -1, 1);
    b.(grabCooldown := MaxReal(0.0, b.grabCooldown - t.dt),
       facing := if horizontal != 0 then horizontal else b.facing,
       vx := WalkSpeed(horizontal, t.speed))
  }

  lemma AirborneStepFalls(m: Map, b: Body, t: Tick)
    requires t.dt > 0.0 && (b.mode == Rising || b.mode == Falling) && !Grabs(m, b, t)
    ensures Step(m, b, t.input, t.speed, t.dt) == FallStep(m, Flying(b, t), t.dt)
  {
  }

  /** The body as it enters the sweep, if the step gets that far: it was airborne, jumped, let go of
      its climbable, lost its support, or walks off its platform. Otherwise it stands, climbs, or
      the step is no step. */
  function Sweeping(m: Map, b: Body, t: Tick): Option<Body> {
    var horizontal, vertical := ClampInt(t.input.horizontal, -1, 1), ClampInt(t.input.vertical, -1, 1);
    var jump := t.input.jump;
    var p := Prepare(m, b, horizontal, vertical, jump, t.dt);
    if t.dt <= 0.0 || (p.mode == Climbing && FindClimbable(m.climbables, p.climbableId).Some? && !jump) then None
    else
      var q := if p.mode == Climbing then LetGo(p, jump)
               else if jump && p.mode == Grounded then p.(vy := -JUMP_SPEED, mode := Rising, platformId := 0)
               else p;
      var r := q.(vx := WalkSpeed(horizontal, t.speed));
      if r.mode != Grounded then Some(r)
      else
        var under := FindPlatform(m.platforms, r.platformId);
        if under.Some? && Covers(under.value, NextX(m, r, t.dt)) then None
        else Some(r.(mode := Falling, platformId := 0))
  }

  /** A step that sweeps is the fall of that body, from the same x and the same feet; one that does
      not sweep reports nothing. */
  lemma StepSweeps(m: Map, b: Body, t: Tick)
    ensures match Sweeping(m, b, t)
            case None => Report(m, b, t) == Result(false, false)
            case Some(c) => Step(m, b, t.input, t.speed, t.dt) == FallStep(m, c, t.dt)
                            && t.dt > 0.0 && c.x == b.x && c.Feet() == b.Feet()
                            && c.mode != Grounded && c.mode != Climbing
  {
    var p := Prepare(m, b, ClampInt(t.input.horizontal, -1, 1), ClampInt(t.input.vertical, -1, 1), t.input.jump, t.dt);
    if p.mode == Climbing && b.mode != Climbing {
      assert FindClimbable(m.climbables, p.climbableId).Some?;
    }
  }

  /** Every way into the sweep, with the speed it starts from. */
  lemma SweepStarts(m: Map, b: Body, t: Tick)
    requires LoaderAccepts(m) && WellFormed(m, b) && t.dt > 0.0
    ensures match b.mode
            case Climbing => (Sweeping(m, b, t).Some? <==> t.input.jump)
                             && (t.input.jump ==> Sweeping(m, b, t).value.vy == -JUMP_SPEED)
            case Grounded => (Sweeping(m, b, t).Some? <==>
                                t.input.jump || (!Grabs(m, b, t) && WalksOff(m, b, t)))
                             && (Sweeping(m, b, t).Some? ==>
                                   Sweeping(m, b, t).value.vy == if t.input.jump then -JUMP_SPEED else 0.0)
            case _ => (Sweeping(m, b, t).Some? <==> !Grabs(m, b, t))
                      && (!Grabs(m, b, t) ==> Sweeping(m, b, t).value == Flying(b, t))
    ensures Sweeping(m, b, t).Some? ==> InRange(m, Sweeping(m, b, t).value)
  {
    if Grabs(m, b, t) && b.mode != Climbing {
      assert FindClimbable(m.climbables, FirstReach(m.climbables, b).value.id).Some?;
    }
  }

  /** The next x is no longer over the platform the body stands on. */
  predicate WalksOff(m: Map, b: Body, t: Tick) {
    var under := FindPlatform(m.platforms, b.platformId);
    under.None? || !Covers(under.value, NextX(m, Flying(b, t), t.dt))
  }

  // ---------------------------------------------------------------- no tunnelling

  /** Somewhere on its way from (x0, f0) to (x1, f1) the foot is exactly on the platform. */
  ghost predicate Meets(p: Platform, x0: real, x1: real, f0: real, f1: real) {
    exists s: real :: MeetsAt(p, x0, x1, f0, f1, s)
  }

  ghost predicate MeetsAt(p: Platform, x0: real, x1: real, f0: real, f1: real, s: real) {
    0.0 <= s <= 1.0 && Along(f0, f1, s) == p.y && Covers(p, Along(x0, x1, s))
  }

  /** The code's test with its clamped quotient is the geometric one for platforms not above the old
      feet; for those above by up to the tolerance it asks whether they cover the old x. */
  lemma CrossesIffMeets(p: Platform, x0: real, x1: real, f0: real, f1: real)
    requires f0 < f1
    ensures Crosses(p, x0, x1, f0, f1)
            <==> Meets(p, x0, x1, f0, f1) || (p.y < f0 <= p.y + EPSILON && Covers(p, x0))
  {
    if Meets(p, x0, x1, f0, f1) {
      MeetIsBelowOldFeet(p, x0, x1, f0, f1);
      var s: real :| MeetsAt(p, x0, x1, f0, f1, s);
      MetAtCrossTime(p, f0, f1, s);
    }
    if p.y < f0 {
      AboveIsCrossedAtOnce(p, x0, x1, f0, f1);
    } else if Crosses(p, x0, x1, f0, f1) {
      MeetsOnlyAtCrossTime(p, f0, f1);
      assert MeetsAt(p, x0, x1, f0, f1, CrossTime(p, f0, f1));
    }
  }

  lemma AboveIsCrossedAtOnce(p: Platform, x0: real, x1: real, f0: real, f1: real)
    requires f0 < f1 && p.y < f0
    ensures CrossTime(p, f0, f1) == 0.0 && CrossX(p, x0, x1, f0, f1) == x0
  {
    var q := (p.y - f0) / (f1 - f0);
    assert q * (f1 - f0) == p.y - f0;
    if q >= 0.0 { Product(q, f1 - f0); }
  }

  lemma MetAtCrossTime(p: Platform, f0: real, f1: real, s: real)
    requires f0 < f1 && f0 <= p.y <= f1 && Along(f0, f1, s) == p.y
    ensures s == CrossTime(p, f0, f1)
  {
    var t := Quotient(p.y - f0, f1 - f0);
    assert CrossTime(p, f0, f1) == t;
    SameFactor(s, t, f1 - f0);
  }

  lemma MeetsOnlyAtCrossTime(p: Platform, f0: real, f1: real)
    requires f0 < f1 && f0 <= p.y <= f1
    ensures Along(f0, f1, CrossTime(p, f0, f1)) == p.y
  {
    var t := Quotient(p.y - f0, f1 - f0);
    assert CrossTime(p, f0, f1) == t;
  }

  /** Platforms crossed no later are no lower. */
  lemma EarlierIsHigher(p: Platform, q: Platform, f0: real, f1: real)
    requires f0 < f1 && f0 <= q.y <= f1 && p.y <= f1 && CrossTime(p, f0, f1) <= CrossTime(q, f0, f1)
    ensures p.y <= q.y
  {
    if p.y >= f0 {
      var a, b := Quotient(p.y - f0, f1 - f0), Quotient(q.y - f0, f1 - f0);
      assert a <= b;
      Product(b - a, f1 - f0);
      assert (b - a) * (f1 - f0) == b * (f1 - f0) - a * (f1 - f0);
    }
  }

  /** The foot of a sweeping body moves down. */
  predicate Descends(c: Body, dt: real) { NextVy(c, dt) >= 0.0 && SweptFeet(c, dt) > c.Feet() }

  /** The fall of any body in any step length: it lands exactly when it descends and some platform is
      crossed, on one crossed earliest, and never ends below a platform its foot met on the way. */
  lemma FallNeverTunnels(m: Map, c: Body, dt: real)
    ensures var f0, f1, x1 := c.Feet(), SweptFeet(c, dt), NextX(m, c, dt);
            var after, landed := FallStep(m, c, dt).0, FallStep(m, c, dt).1.landed;
            && (landed <==> Descends(c, dt) && exists q :: q in m.platforms && Crosses(q, c.x, x1, f0, f1))
            && (Descends(c, dt) ==>
                  forall q | q in m.platforms && Meets(q, c.x, x1, f0, f1) :: landed && after.Feet() <= q.y)
            && (landed ==> exists p :: p in m.platforms && Crosses(p, c.x, x1, f0, f1) && after.Feet() == p.y
                                       && forall q | q in m.platforms && Crosses(q, c.x, x1, f0, f1) ::
                                            CrossTime(p, f0, f1) <= CrossTime(q, f0, f1))
  {
    var f0, f1, x1 := c.Feet(), SweptFeet(c, dt), NextX(m, c, dt);
    var hit := FallHit(m, c, dt);
    assert m.platforms[..|m.platforms|] == m.platforms;
    if Descends(c, dt) {
      assert hit == EarliestHit(m.platforms, |m.platforms|, c.x, x1, f0, f1);
      forall q | q in m.platforms && Meets(q, c.x, x1, f0, f1) ensures hit.Some? && hit.value.y <= q.y {
        MeetIsBelowOldFeet(q, c.x, x1, f0, f1);
        CrossesIffMeets(q, c.x, x1, f0, f1);
        EarlierIsHigher(hit.value, q, f0, f1);
      }
    }
  }

  /** No tunnelling, for every step of every body, however the fall began (see SweepStarts): landing
      happens only in a sweep that descends, exactly when something is crossed between the old feet
      and the new, and the body never ends below a platform its foot met on the way. */
  lemma NoTunnelling(m: Map, b: Body, t: Tick)
    ensures Sweeping(m, b, t).None? ==> !Report(m, b, t).landed
    ensures Sweeping(m, b, t).Some? ==>
              var c := Sweeping(m, b, t).value;
              var f1, x1 := SweptFeet(c, t.dt), NextX(m, c, t.dt);
              && (Report(m, b, t).landed <==>
                    Descends(c, t.dt) && exists q :: q in m.platforms && Crosses(q, b.x, x1, b.Feet(), f1))
              && (Descends(c, t.dt) ==> forall q | q in m.platforms && Meets(q, b.x, x1, b.Feet(), f1) ::
                    Report(m, b, t).landed && After(m, b, t).Feet() <= q.y)
              && (Report(m, b, t).landed ==>
                    exists p :: p in m.platforms && Crosses(p, b.x, x1, b.Feet(), f1) && After(m, b, t).Feet() == p.y
                                && forall q | q in m.platforms && Crosses(q, b.x, x1, b.Feet(), f1) ::
                                     CrossTime(p, b.Feet(), f1) <= CrossTime(q, b.Feet(), f1))
  {
    StepSweeps(m, b, t);
    if Sweeping(m, b, t).Some? { FallNeverTunnels(m, Sweeping(m, b, t).value, t.dt); }
  }

  lemma MeetIsBelowOldFeet(p: Platform, x0: real, x1: real, f0: real, f1: real)
    requires f0 < f1 && Meets(p, x0, x1, f0, f1)
    ensures f0 <= p.y <= f1
  {
    var s: real :| MeetsAt(p, x0, x1, f0, f1, s);
    var drop := Part(f1 - f0, s);
  }

  // ---------------------------------------------------------------- never falling out of the world

  /** `f` spans the world and nothing to stand on or climb reaches below it. */
  ghost predicate Floored(m: Map, f: Platform) {
    && f in m.platforms && f.left <= m.minX && m.maxX <= f.right
    && (forall p | p in m.platforms :: p.y <= f.y)
    && (forall c | c in m.climbables :: c.bottom <= f.y)
  }

  predicate NotBelow(f: Platform, b: Body) { b.Feet() <= f.y + EPSILON }

  ghost predicate FallsOut(m: Map, b: Body, ticks: seq<Tick>)
    decreases |ticks|
  {
    ticks != [] && (Report(m, b, ticks[0]).fellOut || FallsOut(m, After(m, b, ticks[0]), ticks[1..]))
  }

  /** Feet that sweep past the floor are caught by it. */
  lemma FloorCatches(m: Map, f: Platform, x0: real, x1: real, f0: real, f1: real)
    requires Floored(m, f) && f0 < f1 && f0 <= f.y + EPSILON && f.y <= f1
    requires m.minX <= x0 <= m.maxX && m.minX <= x1 <= m.maxX
    ensures EarliestHit(m.platforms, |m.platforms|, x0, x1, f0, f1).Some?
  {
    Between(m.minX, m.maxX, x0, x1, CrossTime(f, f0, f1));
    assert Crosses(f, x0, x1, f0, f1);
    assert m.platforms[..|m.platforms|] == m.platforms;
  }

  /** How far the first step of a jump lifts the feet. */
  function FirstRise(dt: real): real { (JUMP_SPEED - GRAVITY * dt) * dt }

  /** The first step of a jump either comes down already, to be swept, or clears the kill line even
      from feet as low as the tolerance lets a body stand on the floor. */
  predicate StepClears(m: Map, f: Platform, dt: real) {
    FirstRise(dt) < 0.0 || f.y + EPSILON - FirstRise(dt) <= m.killY
  }

  /** Standing no lower than the floor allows, and in the air above the kill line. */
  predicate Safe(m: Map, f: Platform, b: Body) { NotBelow(f, b) && (b.mode != Grounded ==> b.Feet() <= m.killY) }

  /** A fall that goes down, or does not but stays above the kill line, ends safe. */
  lemma FallStaysSafe(m: Map, f: Platform, c: Body, dt: real)
    requires LoaderAccepts(m) && Floored(m, f) && dt > 0.0 && InRange(m, c) && NotBelow(f, c)
    requires NextVy(c, dt) > 0.0 || SweptFeet(c, dt) <= m.killY
    ensures Safe(m, f, FallStep(m, c, dt).0) && !FallStep(m, c, dt).1.fellOut
  {
    var f0, f1, x1 := c.Feet(), SweptFeet(c, dt), NextX(m, c, dt);
    var hit := FallHit(m, c, dt);
    var r := FallStep(m, c, dt).0;
    if hit.Some? {
      assert hit.value in m.platforms;
      assert r.Feet() == hit.value.y;
    } else {
      assert r.Feet() == f1;
      FallDirection(c, dt);
      if NextVy(c, dt) > 0.0 && f.y <= f1 { FloorCatches(m, f, c.x, x1, f0, f1); }
    }
  }

  /** Feet move the way the velocity points. */
  lemma FallDirection(c: Body, dt: real)
    requires dt > 0.0
    ensures NextVy(c, dt) <= 0.0 ==> SweptFeet(c, dt) <= c.Feet()
    ensures NextVy(c, dt) > 0.0 ==> SweptFeet(c, dt) > c.Feet()
  {
    var v := NextVy(c, dt);
    Product(AbsReal(v), dt);
    if v > 0.0 && v * dt == 0.0 { SameFactor(v, 0.0, dt); }
    assert v * dt == if v < 0.0 then -(AbsReal(v) * dt) else AbsReal(v) * dt;
  }

  /** A body that has just jumped, from no lower than the tolerance below the floor. */
  lemma JumpClears(m: Map, f: Platform, c: Body, dt: real)
    requires dt > 0.0 && c.vy == -JUMP_SPEED && NotBelow(f, c) && StepClears(m, f, dt)
    ensures NextVy(c, dt) > 0.0 || SweptFeet(c, dt) <= m.killY
  {
    var v := GRAVITY * dt - JUMP_SPEED;
    assert v * dt == -FirstRise(dt);
    if v <= 0.0 { Product(-v, dt); }
  }

  lemma SweepStaysSafe(m: Map, f: Platform, b: Body, t: Tick)
    requires LoaderAccepts(m) && Floored(m, f) && WellFormed(m, b) && Safe(m, f, b)
    requires t.dt > 0.0 && StepClears(m, f, t.dt) && Sweeping(m, b, t).Some?
    ensures Safe(m, f, After(m, b, t)) && !Report(m, b, t).fellOut
  {
    var c := Sweeping(m, b, t).value;
    StepSweeps(m, b, t);
    SweepStarts(m, b, t);
    if c.vy == -JUMP_SPEED && (b.mode == Grounded || b.mode == Climbing) {
      JumpClears(m, f, c, t.dt);
    } else {
      FallDirection(c, t.dt);
    }
    FallStaysSafe(m, f, c, t.dt);
  }

  lemma ClimbStaysSafe(m: Map, f: Platform, b: Body, c: Climbable, vertical: int, dt: real)
    requires LoaderAccepts(m) && Floored(m, f) && c in m.climbables
    ensures Safe(m, f, ClimbStep(m, b, c, vertical, dt))
  {
    assert ClimbableOk(m, c) && PlatformOk(m, f);
  }

  /** A step that does not sweep ends on a platform or a climbable, or where it was. */
  lemma SettledStaysSafe(m: Map, f: Platform, b: Body, t: Tick)
    requires LoaderAccepts(m) && Floored(m, f) && WellFormed(m, b) && Safe(m, f, b) && Sweeping(m, b, t).None?
    ensures Safe(m, f, After(m, b, t)) && !Report(m, b, t).fellOut
  {
    StepSweeps(m, b, t);
    if t.dt > 0.0 {
      var vertical := ClampInt(t.input.vertical, -1, 1);
      var p := Prepare(m, b, ClampInt(t.input.horizontal, -1, 1), vertical, t.input.jump, t.dt);
      if p.mode == Climbing {
        ClimbStaysSafe(m, f, p, FindClimbable(m.climbables, p.climbableId).value, vertical, t.dt);
      }
    }
  }

  /** No run falls out whose steps all clear, whatever the inputs and speeds. */
  lemma {:induction false} RunStaysSafe(m: Map, f: Platform, b: Body, ticks: seq<Tick>)
    requires LoaderAccepts(m) && Floored(m, f) && WellFormed(m, b) && Safe(m, f, b)
    requires forall t | t in ticks && t.dt > 0.0 :: StepClears(m, f, t.dt)
    ensures !FallsOut(m, b, ticks)
    decreases |ticks|
  {
    if ticks != [] {
      var t := ticks[0];
      assert t in ticks;
      if Sweeping(m, b, t).Some? {
        StepSweeps(m, b, t);
        SweepStaysSafe(m, f, b, t);
      } else {
        SettledStaysSafe(m, f, b, t);
      }
      StepKeepsWellFormed(m, b, t);
      RunStaysSafe(m, f, After(m, b, t), ticks[1..]);
    }
  }

  /** One step of a jump from where a body stands, while it still rises. */
  lemma JumpReports(m: Map, b: Body, dt: real)
    requires dt > 0.0 && FirstRise(dt) >= 0.0 && b.mode == Grounded && Support(m.platforms, b.x, b.Feet()).Some?
    ensures Report(m, b, Tick(Input(0, 0, true), 0.0, dt)).fellOut <==> b.Feet() - FirstRise(dt) > m.killY
  {
    var t := Tick(Input(0, 0, true), 0.0, dt);
    var v := GRAVITY * dt - JUMP_SPEED;
    if v > 0.0 {
      Product(v, dt);
      if v * dt == 0.0 { SameFactor(v, 0.0, dt); }
    }
    StepSweeps(m, b, t);
    var c := Sweeping(m, b, t).value;
    assert c.vy == -JUMP_SPEED;
    FallDirection(c, dt);
    assert NextVy(c, dt) * dt == -FirstRise(dt);
  }

  /** A body set down as far below the floor as it can stand; with a step that does not clear, one
      jump falls out. */
  lemma LowKillLineCatches(m: Map, f: Platform, dt: real)
    requires LoaderAccepts(m) && Floored(m, f) && dt > 0.0 && !StepClears(m, f, dt)
    ensures var b := PlaceOnFeet(m, STILL, m.minX, f.y + EPSILON);
            WellFormed(m, b) && NotBelow(f, b) && FallsOut(m, b, [Tick(Input(0, 0, true), 0.0, dt)])
  {
    var b := PlaceOnFeet(m, STILL, m.minX, f.y + EPSILON);
    PlacedIsWellFormed(m, STILL, m.minX, f.y + EPSILON);
    assert Supports(f, m.minX, f.y + EPSILON);
    JumpReports(m, b, dt);
  }

  const STILL: Body := Body(0.0, 0.0, 0.0, 0.0, 0.0, 0.0, Falling, 0, 0, 1)

  ghost predicate NoRunFallsOut(m: Map, f: Platform) {
    forall b, ticks | WellFormed(m, b) && NotBelow(f, b) :: !FallsOut(m, b, ticks)
  }

  /** On a map with a floor, no run of any steps from an admissible body falls out exactly when the
      kill line is at least the support tolerance below the floor. */
  lemma NeverFallsOutIff(m: Map, f: Platform)
    requires LoaderAccepts(m) && Floored(m, f)
    ensures NoRunFallsOut(m, f) <==> f.y + EPSILON <= m.killY
  {
    if f.y + EPSILON <= m.killY {
      forall b, ticks | WellFormed(m, b) && NotBelow(f, b) ensures !FallsOut(m, b, ticks) {
        RunStaysSafe(m, f, b, ticks);
      }
    } else {
      var dt := JUMP_SPEED / GRAVITY;
      assert FirstRise(dt) == 0.0;
      LowKillLineCatches(m, f, dt);
    }
  }

  /** A place within the world and no lower than the floor allows, for a body facing some way. */
  predicate MayBePlaced(m: Map, f: Platform, b: Body, x: real, y: real) {
    (b.facing == 1 || b.facing == -1) && m.minX <= x <= m.maxX && y <= f.y + EPSILON
  }

  predicate AllSteps(ticks: seq<Tick>, dt: real) { forall t | t in ticks :: t.dt == dt }

  /** Nothing set down no lower than the floor allows falls out in steps of one length. */
  ghost predicate NoFixedRunFallsOut(m: Map, f: Platform, dt: real) {
    forall b: Body, x, y, ticks | MayBePlaced(m, f, b, x, y) && AllSteps(ticks, dt) ::
      !FallsOut(m, PlaceOnFeet(m, b, x, y), ticks)
  }

  lemma ClearingRunNeverFallsOut(m: Map, f: Platform, b: Body, x: real, y: real, ticks: seq<Tick>, dt: real)
    requires LoaderAccepts(m) && Floored(m, f) && StepClears(m, f, dt)
    requires MayBePlaced(m, f, b, x, y) && AllSteps(ticks, dt)
    ensures !FallsOut(m, PlaceOnFeet(m, b, x, y), ticks)
  {
    PlacedIsSafe(m, f, b, x, y);
    RunStaysSafe(m, f, PlaceOnFeet(m, b, x, y), ticks);
  }

  lemma OneJumpFallsOut(m: Map, f: Platform, dt: real)
    requires LoaderAccepts(m) && Floored(m, f) && dt > 0.0 && !StepClears(m, f, dt)
    ensures !NoFixedRunFallsOut(m, f, dt)
  {
    LowKillLineCatches(m, f, dt);
    var ticks := [Tick(Input(0, 0, true), 0.0, dt)];
    assert AllSteps(ticks, dt) && MayBePlaced(m, f, STILL, m.minX, f.y + EPSILON);
  }

  /** For steps of one length the exact condition is that such a step clears. */
  lemma FixedStepNeverFallsOutIff(m: Map, f: Platform, dt: real)
    requires LoaderAccepts(m) && Floored(m, f) && dt > 0.0
    ensures NoFixedRunFallsOut(m, f, dt) <==> StepClears(m, f, dt)
  {
    if StepClears(m, f, dt) {
      forall b: Body, x, y, ticks | MayBePlaced(m, f, b, x, y) && AllSteps(ticks, dt)
        ensures !FallsOut(m, PlaceOnFeet(m, b, x, y), ticks)
      {
        ClearingRunNeverFallsOut(m, f, b, x, y, ticks, dt);
      }
    } else {
      OneJumpFallsOut(m, f, dt);
    }
  }

  lemma PlacedIsSafe(m: Map, f: Platform, b: Body, x: real, y: real)
    requires LoaderAccepts(m) && Floored(m, f) && MayBePlaced(m, f, b, x, y)
    ensures WellFormed(m, PlaceOnFeet(m, b, x, y)) && Safe(m, f, PlaceOnFeet(m, b, x, y))
  {
    PlacedIsWellFormed(m, b, x, y);
    assert PlatformOk(m, f);
    if y > f.y { assert Supports(f, x, y); }
  }

  /** The server's own step always clears: on every map with a floor that the loader accepts, nobody
      set down no lower than the floor allows ever falls out, whatever the kill line. */
  lemma ServerNeverFallsOut(m: Map, f: Platform)
    requires LoaderAccepts(m) && Floored(m, f)
    ensures NoFixedRunFallsOut(m, f, STEP_SECONDS)
  {
    assert PlatformOk(m, f);
    assert FirstRise(STEP_SECONDS) >= EPSILON;
    FixedStepNeverFallsOutIff(m, f, STEP_SECONDS);
  }

  // ---------------------------------------------------------------- the jump ceiling

  const JUMP_HEIGHT: real := JUMP_SPEED * JUMP_SPEED / (2.0 * GRAVITY)

  /** Feet at the top of the arc a rising body is on; the feet themselves once it falls. */
  function Apex(feet: real, vy: real): real {
    if vy < 0.0 then feet - vy * vy / (2.0 * GRAVITY) else feet
  }

  /** No landing and no climbable grabbed on the way. */
  ghost predicate StaysAloft(m: Map, b: Body, ticks: seq<Tick>)
    decreases |ticks|
  {
    ticks == [] || (!Grabs(m, b, ticks[0]) && !Report(m, b, ticks[0]).landed
                    && StaysAloft(m, After(m, b, ticks[0]), ticks[1..]))
  }

  /** Velocity is updated before position, so a step can only lower the apex (raise its y). */
  lemma ApexNeverRises(feet: real, vy: real, dt: real)
    requires dt > 0.0
    ensures var v := MinReal(vy + GRAVITY * dt, MAX_FALL);
            Apex(feet + v * dt, v) >= Apex(feet, vy)
  {
    var v := MinReal(vy + GRAVITY * dt, MAX_FALL);
    if v < 0.0 {
      assert v == vy + GRAVITY * dt;
      assert v * v == vy * vy + 2.0 * GRAVITY * (vy * dt) + GRAVITY * GRAVITY * (dt * dt);
      assert v * dt == vy * dt + GRAVITY * (dt * dt);
      assert dt * dt > 0.0;
    } else {
      assert v * dt >= 0.0;
      assert vy * vy >= 0.0;
    }
  }

  lemma {:induction false} AloftKeepsApex(m: Map, b: Body, ticks: seq<Tick>)
    requires LoaderAccepts(m) && WellFormed(m, b) && (b.mode == Rising || b.mode == Falling)
    requires StaysAloft(m, b, ticks)
    ensures Apex(b.Feet(), b.vy) <= Apex(Run(m, b, ticks).Feet(), Run(m, b, ticks).vy)
    decreases |ticks|
  {
    if ticks != [] {
      var t := ticks[0];
      AloftStepKeepsApex(m, b, t);
      StepKeepsWellFormed(m, b, t);
      AloftKeepsApex(m, After(m, b, t), ticks[1..]);
    }
  }

  lemma AloftStepKeepsApex(m: Map, b: Body, t: Tick)
    requires (b.mode == Rising || b.mode == Falling) && !Grabs(m, b, t) && !Report(m, b, t).landed
    ensures After(m, b, t).mode == Rising || After(m, b, t).mode == Falling
    ensures Apex(b.Feet(), b.vy) <= Apex(After(m, b, t).Feet(), After(m, b, t).vy)
  {
    if t.dt > 0.0 {
      AirborneStepFalls(m, b, t);
      FreeFallKeepsApex(m, Flying(b, t), t.dt);
    }
  }

  lemma FreeFallKeepsApex(m: Map, b: Body, dt: real)
    requires dt > 0.0 && FallHit(m, b, dt).None?
    ensures var r := FallStep(m, b, dt).0;
            (r.mode == Rising || r.mode == Falling) && Apex(b.Feet(), b.vy) <= Apex(r.Feet(), r.vy)
  {
    ApexNeverRises(b.Feet(), b.vy, dt);
    var r := FallStep(m, b, dt).0;
    assert r.Feet() == b.Feet() + NextVy(b, dt) * dt;
  }

  /** A jump from a platform or a climbable leaves at JUMP_SPEED from the same feet. */
  lemma JumpLaunches(m: Map, b: Body, t: Tick)
    requires WellFormed(m, b) && (b.mode == Grounded || b.mode == Climbing)
    requires t.input.jump && t.dt > 0.0 && !Report(m, b, t).landed
    ensures After(m, b, t).mode == Rising || After(m, b, t).mode == Falling
    ensures Apex(b.Feet(), -JUMP_SPEED) <= Apex(After(m, b, t).Feet(), After(m, b, t).vy)
  {
    var horizontal := ClampInt(t.input.horizontal, -1, 1);
    var p := Prepare(m, b, horizontal, ClampInt(t.input.vertical, -1, 1), true, t.dt);
    assert p.mode == b.mode && p.x == b.x && p.Feet() == b.Feet();
    var q := if b.mode == Grounded then p.(vy := -JUMP_SPEED, mode := Rising, platformId := 0) else LetGo(p, true);
    FreeFallKeepsApex(m, q.(vx := WalkSpeed(horizontal, t.speed)), t.dt);
  }

  /** A jump pressed in the air starts nothing: the step is the fall it would have been. */
  lemma AirbornePressIgnored(m: Map, b: Body, t: Tick)
    requires t.dt > 0.0 && (b.mode == Rising || b.mode == Falling)
    ensures var press, rest := t.input.(jump := true), t.input.(jump := false);
            && Step(m, b, press, t.speed, t.dt) == FallStep(m, Flying(b, t), t.dt)
            && (!Grabs(m, b, t.(input := rest)) ==>
                  Step(m, b, press, t.speed, t.dt) == Step(m, b, rest, t.speed, t.dt))
  {
    AirborneStepFalls(m, b, t.(input := t.input.(jump := true)));
    if !Grabs(m, b, t.(input := t.input.(jump := false))) {
      AirborneStepFalls(m, b, t.(input := t.input.(jump := false)));
    }
  }

  /** Until it lands or grabs a climbable, a body that jumped from foot height f never has its
      feet above f - 650^2 / (2 * 1800), whatever is pressed and however time is cut up. */
  lemma JumpCeiling(m: Map, b: Body, t: Tick, ticks: seq<Tick>)
    requires LoaderAccepts(m) && WellFormed(m, b) && (b.mode == Grounded || b.mode == Climbing)
    requires t.input.jump && t.dt > 0.0 && !Report(m, b, t).landed
    requires StaysAloft(m, After(m, b, t), ticks)
    ensures Run(m, b, [t] + ticks).Feet() >= b.Feet() - JUMP_HEIGHT
  {
    JumpLaunches(m, b, t);
    StepKeepsWellFormed(m, b, t);
    var a := After(m, b, t);
    AloftKeepsApex(m, a, ticks);
    var r := Run(m, a, ticks);
    assert Run(m, b, [t] + ticks) == r by { assert ([t] + ticks)[1..] == ticks; }
    ApexIsAbove(r.Feet(), r.vy);
  }

  lemma ApexIsAbove(feet: real, vy: real)
    ensures Apex(feet, vy) <= feet && Apex(feet, -JUMP_SPEED) == feet - JUMP_HEIGHT
  {
    Product(if vy < 0.0 then -vy else vy, if vy < 0.0 then -vy else vy);
    assert vy * vy >= 0.0;
  }
}
