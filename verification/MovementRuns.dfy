/** What every run of the platform physics keeps, for all inputs, speeds and step lengths. */
module MovementRuns {
  import opened Common
  import opened MovementPhysics

  datatype Tick = Tick(input: Input, speed: real, dt: real)

  function After(m: Map, b: Body, t: Tick): Body { Step(m, b, t.input, t.speed, t.dt).0 }

  function Report(m: Map, b: Body, t: Tick): Result { Step(m, b, t.input, t.speed, t.dt).1 }

  function Run(m: Map, b: Body, ticks: seq<Tick>): Body
    decreases |ticks|
  {
    if ticks == [] then b else Run(m, After(m, b, ticks[0]), ticks[1..])
  }

  // ---------------------------------------------------------------- well-formed bodies

  predicate OnNamedPlatform(m: Map, b: Body) {
    var p := FindPlatform(m.platforms, b.platformId);
    p.Some? && Supports(p.value, b.x, b.Feet())
  }

  predicate OnNamedClimbable(m: Map, b: Body) {
    var c := FindClimbable(m.climbables, b.climbableId);
    c.Some? && b.x == c.value.x && c.value.top <= b.Feet() <= c.value.bottom
  }

  predicate ModeFits(m: Map, b: Body) {
    match b.mode
    case Grounded => b.climbableId == 0 && b.vy == 0.0 && OnNamedPlatform(m, b)
    case Climbing => b.platformId == 0 && OnNamedClimbable(m, b)
    case Rising => b.platformId == 0 && b.climbableId == 0 && b.vy < 0.0
    case Falling => b.platformId == 0 && b.climbableId == 0 && b.vy >= 0.0
  }

  predicate InRange(m: Map, b: Body) {
    m.minX <= b.x <= m.maxX && -JUMP_SPEED <= b.vy <= MAX_FALL
    && b.grabCooldown >= 0.0 && (b.facing == 1 || b.facing == -1)
  }

  predicate WellFormed(m: Map, b: Body) { InRange(m, b) && ModeFits(m, b) }

  /** Airborne bodies carry no ids; their mode follows from vy only after the step. */
  predicate Aloft(b: Body) {
    (b.mode == Rising || b.mode == Falling) && b.platformId == 0 && b.climbableId == 0
  }

  lemma {:induction false} FindsUnique(ps: seq<Platform>, p: Platform)
    requires p in ps
    requires forall i, j | 0 <= i < j < |ps| :: ps[i].id != ps[j].id
    ensures FindPlatform(ps, p.id) == Some(p)
  {
    if ps[0] != p {
      assert p in ps[1..];
      var i :| 0 < i < |ps| && ps[i] == p;
      FindsUnique(ps[1..], p);
    }
  }

  lemma {:induction false} FindsUniqueClimbable(cs: seq<Climbable>, c: Climbable)
    requires c in cs
    requires forall i, j | 0 <= i < j < |cs| :: cs[i].id != cs[j].id
    ensures FindClimbable(cs, c.id) == Some(c)
  {
    if cs[0] != c {
      var i :| 0 < i < |cs| && cs[i] == c;
      assert cs[1..][i - 1] == c;
      FindsUniqueClimbable(cs[1..], c);
    }
  }

  /** Entering a map, reviving and stepping off a ladder all place a body by its feet. */
  lemma PlacedIsWellFormed(m: Map, b: Body, feetX: real, feetY: real)
    requires LoaderAccepts(m) && m.minX <= feetX <= m.maxX && (b.facing == 1 || b.facing == -1)
    ensures WellFormed(m, PlaceOnFeet(m, b, feetX, feetY))
    ensures PlaceOnFeet(m, b, feetX, feetY).Feet() == feetY
    ensures PlaceOnFeet(m, b, feetX, feetY).footOffset == b.footOffset
  {
    var s := Support(m.platforms, feetX, feetY);
    if s.Some? { FindsUnique(m.platforms, s.value); }
  }

  /** A body set down is at rest there, ready to grab, standing exactly if there is support. */
  lemma PlacedAtRest(m: Map, b: Body, feetX: real, feetY: real)
    ensures var r := PlaceOnFeet(m, b, feetX, feetY);
            && r.x == feetX && r.Feet() == feetY && r.footOffset == b.footOffset && r.facing == b.facing
            && r.vx == 0.0 && r.vy == 0.0 && r.grabCooldown == 0.0 && (r.mode == Grounded || r.mode == Falling)
            && (r.mode == Grounded <==>
                  exists p :: p in m.platforms && p.left <= feetX <= p.right && AbsReal(feetY - p.y) <= 0.05)
  {
    assert forall p :: Supports(p, feetX, feetY) <==> p.left <= feetX <= p.right && AbsReal(feetY - p.y) <= 0.05;
    var s := Support(m.platforms, feetX, feetY);
    if s.Some? { assert s.value in m.platforms; }
  }

  /** A body set down where it is keeps its position, standing if there is something to stand on. */
  lemma AtOriginIsWellFormed(m: Map, b: Body)
    requires LoaderAccepts(m) && m.minX <= b.x <= m.maxX && (b.facing == 1 || b.facing == -1)
    ensures var r := ResetAtOrigin(m, b);
            WellFormed(m, r) && r.x == b.x && r.Feet() == b.Feet()
            && (r.mode == Grounded <==> exists p :: p in m.platforms && Supports(p, b.x, b.Feet()))
  {
    PlacedIsWellFormed(m, b, b.x, b.Feet());
  }

  lemma FallKeeps(m: Map, b: Body, dt: real)
    requires LoaderAccepts(m) && dt > 0.0 && InRange(m, b) && Aloft(b)
    ensures WellFormed(m, FallStep(m, b, dt).0)
    ensures FallStep(m, b, dt).0.footOffset == b.footOffset
  {
    var hit := FallHit(m, b, dt);
    if hit.Some? {
      FindsUnique(m.platforms, hit.value);
      var r := FallStep(m, b, dt).0;
      assert r.Feet() == hit.value.y;
    }
  }

  lemma MoveKeeps(m: Map, b: Body, horizontal: int, jump: bool, speed: real, dt: real)
    requires LoaderAccepts(m) && dt > 0.0 && InRange(m, b)
    requires Aloft(b) || (b.mode == Grounded && ModeFits(m, b))
    ensures WellFormed(m, MoveStep(m, b, horizontal, jump, speed, dt).0)
    ensures MoveStep(m, b, horizontal, jump, speed, dt).0.footOffset == b.footOffset
  {
    var c := if jump && b.mode == Grounded then b.(vy := -JUMP_SPEED, mode := Rising, platformId := 0) else b;
    var d := c.(vx := WalkSpeed(horizontal, speed));
    if d.mode != Grounded {
      FallKeeps(m, d, dt);
    } else {
      FallKeeps(m, d.(mode := Falling, platformId := 0), dt);
    }
  }

  lemma ClimbKeeps(m: Map, b: Body, c: Climbable, vertical: int, dt: real)
    requires LoaderAccepts(m) && InRange(m, b) && -1 <= vertical <= 1
    requires b.mode == Climbing && b.platformId == 0 && FindClimbable(m.climbables, b.climbableId) == Some(c)
    ensures WellFormed(m, ClimbStep(m, b, c, vertical, dt))
    ensures ClimbStep(m, b, c, vertical, dt).footOffset == b.footOffset
  {
    assert ClimbableOk(m, c);
    var d := b.(x := c.x, vx := 0.0, vy := ClimbVy(vertical));
    var top := FindPlatform(m.platforms, c.topPlatformId);
    PlacedIsWellFormed(m, d, c.x, top.value.y);
    PlacedIsWellFormed(m, d, c.x, c.bottom);
  }

  lemma PrepareKeeps(m: Map, b: Body, horizontal: int, vertical: int, jump: bool, dt: real)
    requires LoaderAccepts(m) && WellFormed(m, b) && -1 <= horizontal <= 1 && dt > 0.0
    ensures var r := Prepare(m, b, horizontal, vertical, jump, dt);
            && InRange(m, r)
            && if r.mode == Climbing then r.platformId == 0 && FindClimbable(m.climbables, r.climbableId).Some?
               else ModeFits(m, r)
  {
    var c := FirstReach(m.climbables, b);
    if c.Some? {
      FindsUniqueClimbable(m.climbables, c.value);
    }
  }

  lemma PreparedKeeps(m: Map, b: Body, horizontal: int, vertical: int, jump: bool, speed: real, dt: real)
    requires LoaderAccepts(m) && InRange(m, b) && dt > 0.0 && -1 <= vertical <= 1
    requires if b.mode == Climbing then b.platformId == 0 && FindClimbable(m.climbables, b.climbableId).Some?
             else ModeFits(m, b)
    ensures WellFormed(m, Resume(m, b, horizontal, vertical, jump, speed, dt).0)
    ensures Resume(m, b, horizontal, vertical, jump, speed, dt).0.footOffset == b.footOffset
  {
    if b.mode != Climbing {
      MoveKeeps(m, b, horizontal, jump, speed, dt);
    } else if jump {
      MoveKeeps(m, LetGo(b, true), horizontal, true, speed, dt);
    } else {
      ClimbKeeps(m, b, FindClimbable(m.climbables, b.climbableId).value, vertical, dt);
    }
  }

  /** One step keeps a body well formed and never changes its foot offset. */
  lemma StepKeepsWellFormed(m: Map, b: Body, t: Tick)
    requires LoaderAccepts(m) && WellFormed(m, b)
    ensures WellFormed(m, After(m, b, t)) && After(m, b, t).footOffset == b.footOffset
  {
    var horizontal, vertical := ClampInt(t.input.horizontal, -1, 1), ClampInt(t.input.vertical, -1, 1);
    if t.dt > 0.0 {
      PrepareKeeps(m, b, horizontal, vertical, t.input.jump, t.dt);
      var r := Prepare(m, b, horizontal, vertical, t.input.jump, t.dt);
      PreparedKeeps(m, r, horizontal, vertical, t.input.jump, t.speed, t.dt);
    }
  }

  lemma {:induction false} RunKeepsWellFormed(m: Map, b: Body, ticks: seq<Tick>)
    requires LoaderAccepts(m) && WellFormed(m, b)
    ensures WellFormed(m, Run(m, b, ticks)) && Run(m, b, ticks).footOffset == b.footOffset
    decreases |ticks|
  {
    if ticks != [] {
      StepKeepsWellFormed(m, b, ticks[0]);
      RunKeepsWellFormed(m, After(m, b, ticks[0]), ticks[1..]);
    }
  }
}
