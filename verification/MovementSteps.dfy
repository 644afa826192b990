/** What one step does to position, speed and timers, in the numbers of the game: every step walks,
    falls, climbs, jumps or does nothing, and this says where it ends. */
module MovementSteps {
  import opened Common
  import opened MovementPhysics
  import opened MovementRuns
  import opened MovementTheorems

  function Horizontal(t: Tick): int { ClampInt(t.input.horizontal, -1, 1) }

  function Vertical(t: Tick): int { ClampInt(t.input.vertical, -1, 1) }

  function Prepared(m: Map, b: Body, t: Tick): Body {
    Prepare(m, b, Horizontal(t), Vertical(t), t.input.jump, t.dt)
  }

  predicate InReach(c: Climbable, b: Body) {
    AbsReal(b.x - c.x) <= c.grabRange && c.top - 0.05 <= b.Feet() <= c.bottom + 0.05
  }

  /** A climbable is grabbed exactly when up or down is pressed, jump is not, the timer has run out
      and one is in reach. */
  lemma GrabsIff(m: Map, b: Body, t: Tick)
    requires t.dt > 0.0 && b.mode != Climbing
    ensures Grabs(m, b, t) <==>
              t.input.vertical != 0 && !t.input.jump && b.grabCooldown <= t.dt
              && exists c :: c in m.climbables && InReach(c, b)
  {
    var r := FirstReach(m.climbables, b);
    assert forall c :: Reaches(c, b) <==> InReach(c, b);
    assert r.None? ==> forall c | c in m.climbables :: !InReach(c, b);
    assert r.Some? ==> r.value in m.climbables && InReach(r.value, b);
  }

  /** A step that ends on, or steps off the end of, a climbable. */
  predicate Climbs(m: Map, b: Body, t: Tick) {
    t.dt > 0.0 && !t.input.jump
    && if b.mode == Climbing then FindClimbable(m.climbables, b.climbableId).Some? else Grabs(m, b, t)
  }

  lemma ClimbsOrNot(m: Map, b: Body, t: Tick)
    requires t.dt > 0.0
    ensures var p := Prepared(m, b, t);
            Climbs(m, b, t) <==> p.mode == Climbing && FindClimbable(m.climbables, p.climbableId).Some? && !t.input.jump
  {
    if b.mode != Climbing && Grabs(m, b, t) {
      assert FindClimbable(m.climbables, FirstReach(m.climbables, b).value.id).Some?;
    }
  }

  /** Without time nothing happens. */
  lemma NoTimeNoStep(m: Map, b: Body, t: Tick)
    requires t.dt <= 0.0
    ensures After(m, b, t) == b && Report(m, b, t) == Result(false, false)
  {
  }

  // ---------------------------------------------------------------- sideways

  /** Walking `b` sideways: the speed it gets and the x that takes it to. */
  predicate Walked(m: Map, b: Body, r: Body, horizontal: int, speed: real, dt: real) {
    r.vx == WalkSpeed(horizontal, speed) && r.x == NextX(m, b.(vx := WalkSpeed(horizontal, speed)), dt)
  }

  lemma SameNextX(m: Map, c: Body, d: Body, dt: real)
    requires c.x == d.x && c.vx == d.vx
    ensures NextX(m, c, dt) == NextX(m, d, dt)
  {
  }

  lemma MoveWalks(m: Map, b: Body, horizontal: int, jump: bool, speed: real, dt: real)
    ensures Walked(m, b, MoveStep(m, b, horizontal, jump, speed, dt).0, horizontal, speed, dt)
  {
    var c := if jump && b.mode == Grounded then b.(vy := -JUMP_SPEED, mode := Rising, platformId := 0) else b;
    var w := WalkSpeed(horizontal, speed);
    var d := c.(vx := w);
    SameNextX(m, d, b.(vx := w), dt);
    SameNextX(m, d, d.(mode := Falling, platformId := 0), dt);
  }

  lemma StepIsMove(m: Map, b: Body, t: Tick)
    requires t.dt > 0.0 && !Climbs(m, b, t)
    ensures var p := Prepared(m, b, t); var q := if p.mode == Climbing then LetGo(p, t.input.jump) else p;
            q.x == b.x && After(m, b, t) == MoveStep(m, q, Horizontal(t), t.input.jump, t.speed, t.dt).0
  {
    ClimbsOrNot(m, b, t);
  }

  lemma StepWalked(m: Map, b: Body, t: Tick)
    requires t.dt > 0.0 && !Climbs(m, b, t)
    ensures Walked(m, b, After(m, b, t), Horizontal(t), t.speed, t.dt)
  {
    StepIsMove(m, b, t);
    var p := Prepared(m, b, t);
    var q := if p.mode == Climbing then LetGo(p, t.input.jump) else p;
    MoveWalks(m, q, Horizontal(t), t.input.jump, t.speed, t.dt);
    SameNextX(m, q.(vx := WalkSpeed(Horizontal(t), t.speed)), b.(vx := WalkSpeed(Horizontal(t), t.speed)), t.dt);
  }

  /** `r` has the sideways speed pressed for, and is where that takes `x0` within the world. */
  predicate WentSideways(m: Map, x0: real, r: Body, horizontal: int, speed: real, dt: real) {
    r.vx == horizontal as real * MaxReal(0.0, speed) && r.x == ClampReal(x0 + r.vx * dt, m.minX, m.maxX)
  }

  lemma WalkedInNumbers(m: Map, b: Body, r: Body, horizontal: int, speed: real, dt: real)
    requires Walked(m, b, r, horizontal, speed, dt)
    ensures WentSideways(m, b.x, r, horizontal, speed, dt)
  {
  }

  /** Off climbables, a step goes the way that is pressed, at the player's speed, for the length of
      the step, and stays within the world. */
  lemma StepMovesX(m: Map, b: Body, t: Tick)
    requires t.dt > 0.0 && !Climbs(m, b, t)
    ensures WentSideways(m, b.x, After(m, b, t), ClampInt(t.input.horizontal, -1, 1), t.speed, t.dt)
  {
    StepWalked(m, b, t);
    WalkedInNumbers(m, b, After(m, b, t), Horizontal(t), t.speed, t.dt);
  }

  // ---------------------------------------------------------------- up and down

  /** Vertical speed at the start of a fall: a jump's, none, or what it was. */
  function StartVy(b: Body, t: Tick): real {
    if t.input.jump && (b.mode == Grounded || b.mode == Climbing) then -650.0
    else if b.mode == Rising || b.mode == Falling then b.vy
    else 0.0
  }

  lemma SweepVy(m: Map, b: Body, t: Tick)
    requires LoaderAccepts(m) && WellFormed(m, b) && Sweeping(m, b, t).Some?
    ensures Sweeping(m, b, t).value.vy == StartVy(b, t)
  {
    StepSweeps(m, b, t);
    SweepStarts(m, b, t);
  }

  /** `a`, reported as `r`, is where a fall from feet `f0` at vertical speed `vy0` ends: one that does
      not land gains 1800 a second up to 1000 and moves the feet by the new speed; a landing stops
      it on a platform, standing exactly if the platform is still below. */
  ghost predicate Fell(m: Map, f0: real, vy0: real, a: Body, r: Result, dt: real) {
    var v := MinReal(vy0 + 1800.0 * dt, 1000.0);
    && (r.fellOut <==> a.Feet() > m.killY)
    && (!r.landed ==> a.vy == v && a.Feet() == f0 + v * dt && a.mode == if v < 0.0 then Rising else Falling)
    && (r.landed ==>
          v >= 0.0 && a.vy == 0.0
          && exists p :: p in m.platforms && a.Feet() == p.y
                         && if p.left <= a.x <= p.right then a.mode == Grounded && a.platformId == p.id
                            else a.mode == Falling)
  }

  lemma FallFell(m: Map, c: Body, dt: real)
    requires c.mode != Grounded
    ensures Fell(m, c.Feet(), c.vy, FallStep(m, c, dt).0, FallStep(m, c, dt).1, dt)
  {
    var hit := FallHit(m, c, dt);
    if hit.Some? {
      assert hit.value in m.platforms && FallStep(m, c, dt).0.Feet() == hit.value.y;
    }
  }

  /** Every step that sweeps falls so, from the feet it starts at and the speed it starts with. */
  lemma StepMovesY(m: Map, b: Body, t: Tick)
    requires LoaderAccepts(m) && WellFormed(m, b) && Sweeping(m, b, t).Some?
    ensures Fell(m, b.Feet(), StartVy(b, t), After(m, b, t), Report(m, b, t), t.dt)
  {
    StepSweeps(m, b, t);
    SweepVy(m, b, t);
    FallFell(m, Sweeping(m, b, t).value, t.dt);
  }

  /** A step that neither falls nor climbs walks along the platform the body stands on. */
  lemma StepWalks(m: Map, b: Body, t: Tick)
    requires LoaderAccepts(m) && WellFormed(m, b) && t.dt > 0.0 && Sweeping(m, b, t).None? && !Climbs(m, b, t)
    ensures b.mode == Grounded && After(m, b, t).mode == Grounded && After(m, b, t).platformId == b.platformId
    ensures After(m, b, t).vy == 0.0
    ensures exists p :: p in m.platforms && p.id == b.platformId && After(m, b, t).Feet() == p.y
                        && p.left <= After(m, b, t).x <= p.right
  {
    ClimbsOrNot(m, b, t);
    SweepStarts(m, b, t);
    var under := FindPlatform(m.platforms, b.platformId);
    assert under.value in m.platforms;
  }

  // ---------------------------------------------------------------- climbing

  /** The climbable a climbing step is about. */
  function HeldBy(m: Map, b: Body, t: Tick): (c: Climbable)
    requires Climbs(m, b, t)
    ensures c in m.climbables
    ensures b.mode == Climbing ==> c.id == b.climbableId
    ensures b.mode != Climbing ==> InReach(c, b)
  {
    if b.mode == Climbing then FindClimbable(m.climbables, b.climbableId).value
    else FirstReach(m.climbables, b).value
  }

  lemma {:induction false} SameReach(cs: seq<Climbable>, b: Body, p: Body)
    requires b.x == p.x && b.Feet() == p.Feet()
    ensures FirstReach(cs, b) == FirstReach(cs, p)
  {
    if cs != [] { SameReach(cs[1..], b, p); }
  }

  lemma PreparedHolds(m: Map, b: Body, t: Tick)
    requires LoaderAccepts(m) && Climbs(m, b, t)
    ensures var p := Prepared(m, b, t);
            p.mode == Climbing && p.climbableId == HeldBy(m, b, t).id && p.Feet() == b.Feet()
            && p.facing == (if Horizontal(t) != 0 then Horizontal(t) else b.facing)
            && p.grabCooldown == MaxReal(0.0, b.grabCooldown - t.dt)
  {
    if b.mode != Climbing {
      var q := b.(grabCooldown := MaxReal(0.0, b.grabCooldown - t.dt),
                  facing := if Horizontal(t) != 0 then Horizontal(t) else b.facing);
      SameReach(m.climbables, b, q);
      SameReach(m.climbables, b, q.(mode := Falling, platformId := 0));
    }
  }

  lemma ClimbingHolds(m: Map, b: Body, t: Tick)
    requires LoaderAccepts(m) && Climbs(m, b, t)
    ensures After(m, b, t) == ClimbStep(m, Prepared(m, b, t), HeldBy(m, b, t), Vertical(t), t.dt)
    ensures Report(m, b, t) == Result(false, false)
  {
    PreparedHolds(m, b, t);
    FindsUniqueClimbable(m.climbables, HeldBy(m, b, t));
  }

  /** `a` is where climbing `c` from feet `f0` ends: the feet move 180 a second the way that is
      pressed; past the top the body is on the top platform, past the bottom at the bottom, both off
      the climbable, and otherwise it stays on, between the ends. */
  ghost predicate Climbed(m: Map, f0: real, c: Climbable, a: Body, vertical: int, dt: real) {
    var v := vertical as real * 180.0;
    var feet := f0 + v * dt;
    && a.x == c.x && a.vx == 0.0
    && if vertical < 0 && feet <= c.top then
         a.mode != Climbing && exists p :: p in m.platforms && p.id == c.topPlatformId && a.Feet() == p.y
       else if vertical > 0 && feet >= c.bottom then a.mode != Climbing && a.Feet() == c.bottom
       else a.mode == Climbing && a.climbableId == c.id && a.vy == v && a.Feet() == ClampReal(feet, c.top, c.bottom)
  }

  lemma ClimbStepClimbed(m: Map, b: Body, c: Climbable, vertical: int, dt: real)
    requires b.mode == Climbing && b.climbableId == c.id && FindPlatform(m.platforms, c.topPlatformId).Some?
    ensures Climbed(m, b.Feet(), c, ClimbStep(m, b, c, vertical, dt), vertical, dt)
  {
    var top := FindPlatform(m.platforms, c.topPlatformId).value;
    assert top in m.platforms && top.id == c.topPlatformId;
    var r := ClimbStep(m, b, c, vertical, dt);
    assert ClimbVy(vertical) == vertical as real * 180.0;
    if vertical < 0 && ClimbFeet(b, vertical, dt) <= c.top {
      assert r.mode != Climbing && r.Feet() == top.y;
    } else if vertical > 0 && ClimbFeet(b, vertical, dt) >= c.bottom {
      assert r.mode != Climbing && r.Feet() == c.bottom;
    } else {
      assert r.Feet() == ClampReal(ClimbFeet(b, vertical, dt), c.top, c.bottom);
    }
  }

  /** Every climbing step does so, on the climbable held or grabbed. */
  lemma StepClimbs(m: Map, b: Body, t: Tick)
    requires LoaderAccepts(m) && Climbs(m, b, t)
    ensures Climbed(m, b.Feet(), HeldBy(m, b, t), After(m, b, t), ClampInt(t.input.vertical, -1, 1), t.dt)
  {
    PreparedHolds(m, b, t);
    ClimbingHolds(m, b, t);
    assert ClimbableOk(m, HeldBy(m, b, t));
    ClimbStepClimbed(m, Prepared(m, b, t), HeldBy(m, b, t), Vertical(t), t.dt);
  }

  // ---------------------------------------------------------------- facing and the grab timer

  /** Leaving a climbable, by a jump or over an end. */
  predicate Leaves(m: Map, b: Body, t: Tick) {
    if Climbs(m, b, t) then After(m, b, t).mode != Climbing else b.mode == Climbing
  }

  lemma MoveKeepsTimer(m: Map, b: Body, horizontal: int, jump: bool, speed: real, dt: real)
    ensures var r := MoveStep(m, b, horizontal, jump, speed, dt).0;
            r.facing == b.facing && r.grabCooldown == b.grabCooldown && (b.mode != Climbing ==> r.mode != Climbing)
  {
  }

  lemma ClimbKeepsTimer(m: Map, b: Body, c: Climbable, vertical: int, dt: real)
    requires b.mode == Climbing
    ensures var r := ClimbStep(m, b, c, vertical, dt);
            r.facing == b.facing && r.grabCooldown == if r.mode == Climbing then b.grabCooldown else 0.2
  {
  }

  /** A step faces the way that is pressed, and starts the grab timer exactly on leaving a climbable. */
  lemma FacingAndTimer(m: Map, b: Body, t: Tick)
    requires LoaderAccepts(m) && t.dt > 0.0
    ensures After(m, b, t).facing == if Horizontal(t) != 0 then Horizontal(t) else b.facing
    ensures After(m, b, t).grabCooldown == if Leaves(m, b, t) then 0.2 else MaxReal(0.0, b.grabCooldown - t.dt)
  {
    if Climbs(m, b, t) {
      PreparedHolds(m, b, t);
      ClimbingHolds(m, b, t);
      ClimbKeepsTimer(m, Prepared(m, b, t), HeldBy(m, b, t), Vertical(t), t.dt);
    } else {
      StepIsMove(m, b, t);
      PreparedTimer(m, b, t);
      var p := Prepared(m, b, t);
      var q := if p.mode == Climbing then LetGo(p, t.input.jump) else p;
      MoveKeepsTimer(m, q, Horizontal(t), t.input.jump, t.speed, t.dt);
    }
  }

  lemma PreparedTimer(m: Map, b: Body, t: Tick)
    requires t.dt > 0.0 && !Climbs(m, b, t)
    ensures var p := Prepared(m, b, t);
            p.facing == (if Horizontal(t) != 0 then Horizontal(t) else b.facing)
            && p.grabCooldown == MaxReal(0.0, b.grabCooldown - t.dt)
            && (p.mode == Climbing <==> b.mode == Climbing)
  {
    if b.mode != Climbing && Grabs(m, b, t) { GrabsIff(m, b, t); }
  }

  function Elapsed(ticks: seq<Tick>): real {
    if ticks == [] then 0.0 else MaxReal(0.0, ticks[0].dt) + Elapsed(ticks[1..])
  }

  /** While the timer runs nothing is grabbed, whatever is pressed. */
  lemma {:induction false} TimerKeepsOff(m: Map, b: Body, ticks: seq<Tick>)
    requires LoaderAccepts(m) && b.mode != Climbing && b.grabCooldown > Elapsed(ticks)
    ensures Run(m, b, ticks).mode != Climbing
    decreases |ticks|
  {
    if ticks != [] {
      var t := ticks[0];
      ElapsedNonNegative(ticks[1..]);
      if t.dt > 0.0 {
        GrabsIff(m, b, t);
        OffStaysOff(m, b, t);
        FacingAndTimer(m, b, t);
      }
      TimerKeepsOff(m, After(m, b, t), ticks[1..]);
    }
  }

  lemma OffStaysOff(m: Map, b: Body, t: Tick)
    requires t.dt > 0.0 && b.mode != Climbing && !Grabs(m, b, t)
    ensures After(m, b, t).mode != Climbing
  {
  }

  lemma {:induction false} ElapsedNonNegative(ticks: seq<Tick>)
    ensures Elapsed(ticks) >= 0.0
  {
    if ticks != [] { ElapsedNonNegative(ticks[1..]); }
  }

  /** After leaving a climbable none is grabbed for 0.2 seconds, so a jump off it cannot be undone. */
  lemma NoRegrab(m: Map, b: Body, t: Tick, ticks: seq<Tick>)
    requires LoaderAccepts(m) && t.dt > 0.0 && Leaves(m, b, t) && After(m, b, t).mode != Climbing
    requires Elapsed(ticks) < 0.2
    ensures Run(m, b, [t] + ticks).mode != Climbing
  {
    FacingAndTimer(m, b, t);
    TimerKeepsOff(m, After(m, b, t), ticks);
    assert ([t] + ticks)[1..] == ticks;
  }
}
