/** Platform physics: one `Step` of a player or a monster on a map.

    The y axis points down, so a larger y is lower. `Body` is the value of a mover's
    position and motion fields; `Step` says what one step makes of it, and the class
    `Mover` updates the fields in place, branch by branch and loop by loop.
 */
module MovementPhysics {
  import opened Common

  const GRAVITY: real := 1800.0
  const MAX_FALL: real := 1000.0
  const JUMP_SPEED: real := 650.0
  const CLIMB_SPEED: real := 180.0
  const EPSILON: real := 0.05
  const GRAB_DELAY: real := 0.2

  /** The step the server simulates by. */
  const STEP_SECONDS: real := 1.0 / 60.0

  datatype Mode = Grounded | Rising | Falling | Climbing

  datatype Platform = Platform(id: int, left: real, right: real, y: real)

  datatype Climbable =
    Climbable(id: int, kind: string, x: real, top: real, bottom: real, grabRange: real, topPlatformId: int)

  datatype Map = Map(platforms: seq<Platform>, climbables: seq<Climbable>,
                     minX: real, maxX: real, killY: real, safeX: real, safeY: real)

  datatype Input = Input(horizontal: int, vertical: int, jump: bool)

  datatype Result = Result(landed: bool, fellOut: bool)

  datatype Body = Body(x: real, y: real, vx: real, vy: real, footOffset: real, grabCooldown: real,
                       mode: Mode, platformId: int, climbableId: int, facing: int)
  {
    function Feet(): real { y + footOffset }
  }

  // ---------------------------------------------------------------- queries

  predicate Covers(p: Platform, x: real) { p.left <= x <= p.right }

  function FindPlatform(ps: seq<Platform>, id: int): (r: Option<Platform>)
    ensures r.Some? ==> r.value in ps && r.value.id == id
    ensures r.None? ==> forall p | p in ps :: p.id != id
  {
    if ps == [] then None
    else if ps[0].id == id then Some(ps[0])
    else FindPlatform(ps[1..], id)
  }

  function FindClimbable(cs: seq<Climbable>, id: int): (r: Option<Climbable>)
    ensures r.Some? ==> r.value in cs && r.value.id == id
    ensures r.None? ==> forall c | c in cs :: c.id != id
  {
    if cs == [] then None
    else if cs[0].id == id then Some(cs[0])
    else FindClimbable(cs[1..], id)
  }

  predicate Supports(p: Platform, x: real, feet: real) {
    Covers(p, x) && AbsReal(feet - p.y) <= EPSILON
  }

  function Support(ps: seq<Platform>, x: real, feet: real): (r: Option<Platform>)
    ensures r.Some? ==> r.value in ps && Supports(r.value, x, feet)
    ensures r.None? ==> forall p | p in ps :: !Supports(p, x, feet)
  {
    if ps == [] then None
    else if Supports(ps[0], x, feet) then Some(ps[0])
    else Support(ps[1..], x, feet)
  }

  // ---------------------------------------------------------------- the loader's checks

  predicate PlatformOk(m: Map, p: Platform) {
    p.id > 0 && p.left < p.right && m.minX <= p.left && p.right <= m.maxX && p.y < m.killY
  }

  predicate ClimbableOk(m: Map, c: Climbable) {
    && (c.kind == "rope" || c.kind == "ladder")
    && c.id > 0 && c.top < c.bottom && c.grabRange > 0.0
    && m.minX <= c.x <= m.maxX && c.bottom < m.killY
    && var p := FindPlatform(m.platforms, c.topPlatformId);
    p.Some? && Covers(p.value, c.x) && AbsReal(p.value.y - c.top) <= EPSILON
  }

  ghost predicate LoaderAccepts(m: Map) {
    && m.minX < m.maxX
    && (forall p | p in m.platforms :: PlatformOk(m, p))
    && (forall i, j | 0 <= i < j < |m.platforms| :: m.platforms[i].id != m.platforms[j].id)
    && Support(m.platforms, m.safeX, m.safeY).Some?
    && (forall c | c in m.climbables :: ClimbableOk(m, c))
    && (forall i, j | 0 <= i < j < |m.climbables| :: m.climbables[i].id != m.climbables[j].id)
  }

  /** The loader's first loop: each entry is checked and its id entered in the set of seen ids. */
  method LoadPlatforms(m: Map) returns (ok: bool)
    ensures ok <==> && (forall p | p in m.platforms :: PlatformOk(m, p))
                    && forall i, j | 0 <= i < j < |m.platforms| :: m.platforms[i].id != m.platforms[j].id
  {
    var ids: set<int> := {};
    for i := 0 to |m.platforms|
      invariant forall k | 0 <= k < i :: PlatformOk(m, m.platforms[k])
      invariant ids == set k | 0 <= k < i :: m.platforms[k].id
      invariant forall k, l | 0 <= k < l < i :: m.platforms[k].id != m.platforms[l].id
    {
      var p := m.platforms[i];
      assert p in m.platforms;
      if p.id in ids { return false; }
      if p.id <= 0 || p.left >= p.right || p.left < m.minX || p.right > m.maxX || p.y >= m.killY {
        return false;
      }
      ids := ids + {p.id};
    }
    return true;
  }

  /** The loader's second loop, over the climbables. */
  method LoadClimbables(m: Map) returns (ok: bool)
    ensures ok <==> && (forall c | c in m.climbables :: ClimbableOk(m, c))
                    && forall i, j | 0 <= i < j < |m.climbables| :: m.climbables[i].id != m.climbables[j].id
  {
    var ids: set<int> := {};
    for i := 0 to |m.climbables|
      invariant forall k | 0 <= k < i :: ClimbableOk(m, m.climbables[k])
      invariant ids == set k | 0 <= k < i :: m.climbables[k].id
      invariant forall k, l | 0 <= k < l < i :: m.climbables[k].id != m.climbables[l].id
    {
      var c := m.climbables[i];
      assert c in m.climbables;
      if c.id in ids { return false; }
      if c.kind != "rope" && c.kind != "ladder" { return false; }
      var p := FindPlatform(m.platforms, c.topPlatformId);
      if c.id <= 0 || c.top >= c.bottom || c.grabRange <= 0.0
         || c.x < m.minX || c.x > m.maxX || c.bottom >= m.killY
         || p.None? || !Covers(p.value, c.x) || AbsReal(p.value.y - c.top) > EPSILON
      {
        return false;
      }
      ids := ids + {c.id};
    }
    return true;
  }

  /** The loader: any failed check is an exception, here `false`. */
  method LoadMap(m: Map) returns (ok: bool)
    ensures ok <==> LoaderAccepts(m)
  {
    if m.minX >= m.maxX { return false; }
    ok := LoadPlatforms(m);
    if !ok || Support(m.platforms, m.safeX, m.safeY).None? { return false; }
    ok := LoadClimbables(m);
  }

  // ---------------------------------------------------------------- placing a body

  function Reset(b: Body): Body {
    Body(b.x, b.y, 0.0, 0.0, b.footOffset, 0.0, Falling, 0, 0, b.facing)
  }

  function PlaceOnFeet(m: Map, b: Body, feetX: real, feetY: real): Body {
    var r := Reset(b).(x := feetX, y := feetY - b.footOffset);
    match Support(m.platforms, feetX, feetY)
    case Some(p) => r.(mode := Grounded, platformId := p.id)
    case None => r
  }

  function ResetAtOrigin(m: Map, b: Body): Body { PlaceOnFeet(m, b, b.x, b.Feet()) }

  // ---------------------------------------------------------------- climbing

  predicate Reaches(c: Climbable, b: Body) {
    && AbsReal(b.x - c.x) <= c.grabRange
    && c.top - EPSILON <= b.Feet() <= c.bottom + EPSILON
  }

  function FirstReach(cs: seq<Climbable>, b: Body): (r: Option<Climbable>)
    ensures r.Some? ==> r.value in cs && Reaches(r.value, b)
    ensures r.None? ==> forall c | c in cs :: !Reaches(c, b)
  {
    if cs == [] then None
    else if Reaches(cs[0], b) then Some(cs[0])
    else FirstReach(cs[1..], b)
  }

  predicate WantsGrab(b: Body, vertical: int, jump: bool) {
    b.mode != Climbing && vertical != 0 && !jump && b.grabCooldown <= 0.0
  }

  function Grab(m: Map, b: Body, vertical: int, jump: bool): Body {
    if !WantsGrab(b, vertical, jump) then b
    else match FirstReach(m.climbables, b)
      case None => b
      case Some(c) => b.(mode := Climbing, climbableId := c.id, platformId := 0,
                         vx := 0.0, vy := 0.0, x := c.x)
  }

  function ClimbVy(vertical: int): real { vertical as real * CLIMB_SPEED }

  function ClimbFeet(b: Body, vertical: int, dt: real): real { b.Feet() + ClimbVy(vertical) * dt }

  /** A body that stays on climbable `c` during the step, or steps off its top or bottom. */
  function ClimbStep(m: Map, b: Body, c: Climbable, vertical: int, dt: real): Body {
    var feet := ClimbFeet(b, vertical, dt);
    var b := b.(x := c.x, vx := 0.0, vy := ClimbVy(vertical));
    var top := FindPlatform(m.platforms, c.topPlatformId);
    if vertical < 0 && feet <= c.top && top.Some? then
      PlaceOnFeet(m, b, c.x, top.value.y).(grabCooldown := GRAB_DELAY)
    else if vertical > 0 && feet >= c.bottom then
      PlaceOnFeet(m, b, c.x, c.bottom).(grabCooldown := GRAB_DELAY)
    else
      b.(y := ClampReal(feet, c.top, c.bottom) - b.footOffset)
  }

  // ---------------------------------------------------------------- the foot sweep

  /** When, as a fraction of the step, feet moving from `f0` down to `f1` meet platform `p`. */
  function CrossTime(p: Platform, f0: real, f1: real): (t: real)
    requires f0 < f1
    ensures 0.0 <= t <= 1.0
  {
    ClampReal((p.y - f0) / (f1 - f0), 0.0, 1.0)
  }

  /** The point at part `s` of the way from `a` to `b`. */
  function Along(a: real, b: real, s: real): real { a + (b - a) * s }

  /** The foot's x at that time. */
  function CrossX(p: Platform, x0: real, x1: real, f0: real, f1: real): real
    requires f0 < f1
  {
    Along(x0, x1, CrossTime(p, f0, f1))
  }

  predicate Crosses(p: Platform, x0: real, x1: real, f0: real, f1: real)
    requires f0 < f1
  {
    f0 <= p.y + EPSILON && p.y <= f1 && Covers(p, CrossX(p, x0, x1, f0, f1))
  }

  /** The first of the earliest platforms crossed among the first `n`. */
  function EarliestHit(ps: seq<Platform>, n: nat, x0: real, x1: real, f0: real, f1: real): (r: Option<Platform>)
    requires n <= |ps| && f0 < f1
    ensures r.Some? ==> r.value in ps[..n] && Crosses(r.value, x0, x1, f0, f1)
    ensures r.Some? ==> forall q | q in ps[..n] && Crosses(q, x0, x1, f0, f1) ::
                          CrossTime(r.value, f0, f1) <= CrossTime(q, f0, f1)
    ensures r.None? ==> forall q | q in ps[..n] :: !Crosses(q, x0, x1, f0, f1)
  {
    if n == 0 then None
    else
      var best := EarliestHit(ps, n - 1, x0, x1, f0, f1);
      var p := ps[n - 1];
      assert ps[..n] == ps[..n - 1] + [p];
      if Crosses(p, x0, x1, f0, f1)
         && (best.None? || CrossTime(p, f0, f1) < CrossTime(best.value, f0, f1))
      then Some(p) else best
  }

  /** The sweep loop: tracks the best platform so far and its crossing time, 2 meaning none. */
  method Sweep(ps: seq<Platform>, x0: real, x1: real, f0: real, f1: real) returns (hit: Option<Platform>)
    requires f0 < f1
    ensures hit == EarliestHit(ps, |ps|, x0, x1, f0, f1)
  {
    var bestT := 2.0;
    hit := None;
    for i := 0 to |ps|
      invariant hit == EarliestHit(ps, i, x0, x1, f0, f1)
      invariant bestT == if hit.Some? then CrossTime(hit.value, f0, f1) else 2.0
    {
      ghost var next := EarliestHit(ps, i + 1, x0, x1, f0, f1);
      if f0 > ps[i].y + EPSILON || f1 < ps[i].y {
        assert next == hit;
        continue;
      }
      var t := CrossTime(ps[i], f0, f1);
      if Covers(ps[i], CrossX(ps[i], x0, x1, f0, f1)) && t < bestT {
        hit, bestT := Some(ps[i]), t;
      }
      assert next == hit;
    }
  }

  // ---------------------------------------------------------------- free movement

  function WalkSpeed(horizontal: int, speed: real): real { horizontal as real * MaxReal(0.0, speed) }

  function NextX(m: Map, b: Body, dt: real): real { ClampReal(b.x + b.vx * dt, m.minX, m.maxX) }

  function NextVy(b: Body, dt: real): real { MinReal(b.vy + GRAVITY * dt, MAX_FALL) }

  function NextY(b: Body, dt: real): real { b.y + NextVy(b, dt) * dt }

  function SweptFeet(b: Body, dt: real): real { NextY(b, dt) + b.footOffset }

  function FallHit(m: Map, b: Body, dt: real): Option<Platform> {
    if NextVy(b, dt) >= 0.0 && SweptFeet(b, dt) > b.Feet()
    then EarliestHit(m.platforms, |m.platforms|, b.x, NextX(m, b, dt), b.Feet(), SweptFeet(b, dt))
    else None
  }

  function FallStep(m: Map, b: Body, dt: real): (Body, Result) {
    var vy := NextVy(b, dt);
    var nx := NextX(m, b, dt);
    match FallHit(m, b, dt)
    case Some(p) =>
      var r := b.(x := nx, y := p.y - b.footOffset, vy := 0.0,
                  mode := if Covers(p, nx) then Grounded else Falling,
                  platformId := if Covers(p, nx) then p.id else 0);
      (r, Result(true, r.Feet() > m.killY))
    case None =>
      var r := b.(x := nx, y := NextY(b, dt), vy := vy, mode := if vy < 0.0 then Rising else Falling);
      (r, Result(false, r.Feet() > m.killY))
  }

  /** Jump, walk on the current platform, or fall. */
  function MoveStep(m: Map, b: Body, horizontal: int, jump: bool, speed: real, dt: real): (Body, Result) {
    var b := if jump && b.mode == Grounded then b.(vy := -JUMP_SPEED, mode := Rising, platformId := 0) else b;
    var b := b.(vx := WalkSpeed(horizontal, speed));
    if b.mode != Grounded then FallStep(m, b, dt)
    else
      var p := FindPlatform(m.platforms, b.platformId);
      if p.Some? && Covers(p.value, NextX(m, b, dt)) then
        (b.(x := NextX(m, b, dt), y := p.value.y - b.footOffset, vy := 0.0), Result(false, false))
      else
        FallStep(m, b.(mode := Falling, platformId := 0), dt)
  }

  // ---------------------------------------------------------------- one step

  /** Timer, facing, loss of support, and a possible grab. */
  function Prepare(m: Map, b: Body, horizontal: int, vertical: int, jump: bool, dt: real): Body {
    var b := b.(grabCooldown := MaxReal(0.0, b.grabCooldown - dt),
                facing := if horizontal != 0 then horizontal else b.facing);
    var b := if b.mode == Grounded && Support(m.platforms, b.x, b.Feet()).None?
             then b.(mode := Falling, platformId := 0) else b;
    Grab(m, b, vertical, jump)
  }

  function LetGo(b: Body, jump: bool): Body {
    b.(mode := if jump then Rising else Falling, vy := if jump then -JUMP_SPEED else 0.0,
       climbableId := 0, grabCooldown := GRAB_DELAY)
  }

  /** The rest of the step: stay on the climbable, or leave it and move. */
  function Resume(m: Map, b: Body, horizontal: int, vertical: int, jump: bool, speed: real, dt: real): (Body, Result) {
    if b.mode != Climbing then MoveStep(m, b, horizontal, jump, speed, dt)
    else
      var c := FindClimbable(m.climbables, b.climbableId);
      if c.None? || jump then MoveStep(m, LetGo(b, jump), horizontal, jump, speed, dt)
      else (ClimbStep(m, b, c.value, vertical, dt), Result(false, false))
  }

  function Step(m: Map, b: Body, input: Input, speed: real, dt: real): (Body, Result) {
    if dt <= 0.0 then (b, Result(false, false))
    else
      var horizontal := ClampInt(input.horizontal, -1, 1);
      var vertical := ClampInt(input.vertical, -1, 1);
      Resume(m, Prepare(m, b, horizontal, vertical, input.jump, dt), horizontal, vertical, input.jump, speed, dt)
  }

  // ---------------------------------------------------------------- the fields, updated in place

  class Mover {
    var x: real
    var y: real
    var vx: real
    var vy: real
    var footOffset: real
    var grabCooldown: real
    var mode: Mode
    var platformId: int
    var climbableId: int
    var facing: int

    function View(): Body
      reads this
    {
      Body(x, y, vx, vy, footOffset, grabCooldown, mode, platformId, climbableId, facing)
    }

    constructor (x: real, y: real, footOffset: real)
      ensures View() == Body(x, y, 0.0, 0.0, footOffset, 0.0, Falling, 0, 0, 1)
    {
      this.x, this.y, this.footOffset := x, y, footOffset;
      vx, vy, grabCooldown, mode, platformId, climbableId, facing := 0.0, 0.0, 0.0, Falling, 0, 0, 1;
    }

    method ResetFields()
      modifies this
      ensures View() == Reset(old(View()))
    {
      vx, vy, grabCooldown, mode, platformId, climbableId := 0.0, 0.0, 0.0, Falling, 0, 0;
    }

    method PlaceFeet(m: Map, feetX: real, feetY: real)
      modifies this
      ensures View() == PlaceOnFeet(m, old(View()), feetX, feetY)
    {
      ResetFields();
      x, y := feetX, feetY - footOffset;
      var p := Support(m.platforms, feetX, feetY);
      if p.Some? { mode, platformId := Grounded, p.value.id; }
    }

    method PlaceAtOrigin(m: Map)
      modifies this
      ensures View() == ResetAtOrigin(m, old(View()))
    {
      PlaceFeet(m, x, y + footOffset);
    }

    method TryGrab(m: Map)
      modifies this
      ensures View() == match FirstReach(m.climbables, old(View()))
                        case None => old(View())
                        case Some(c) => old(View()).(mode := Climbing, climbableId := c.id, platformId := 0,
                                                     vx := 0.0, vy := 0.0, x := c.x)
    {
      var i := 0;
      while i < |m.climbables|
        invariant 0 <= i <= |m.climbables|
        invariant View() == old(View())
        invariant FirstReach(m.climbables, old(View())) == FirstReach(m.climbables[i..], old(View()))
      {
        var c := m.climbables[i];
        var feet := y + footOffset;
        if AbsReal(x - c.x) <= c.grabRange && feet >= c.top - EPSILON && feet <= c.bottom + EPSILON {
          mode, climbableId, platformId, vx, vy, x := Climbing, c.id, 0, 0.0, 0.0, c.x;
          return;
        }
        i := i + 1;
      }
    }

    method Fall(m: Map, dt: real) returns (result: Result)
      modifies this
      ensures View() == FallStep(m, old(View()), dt).0 && result == FallStep(m, old(View()), dt).1
    {
      var before := View();
      var nextX := NextX(m, before, dt);
      vy := NextVy(before, dt);
      var nextY := NextY(before, dt);
      var hit := None;
      if vy >= 0.0 && nextY + footOffset > before.Feet() {
        hit := Sweep(m.platforms, before.x, nextX, before.Feet(), nextY + footOffset);
      }
      x, y := nextX, nextY;
      if hit.Some? {
        vy, y := 0.0, hit.value.y - footOffset;
        mode := if Covers(hit.value, nextX) then Grounded else Falling;
        platformId := if mode == Grounded then hit.value.id else 0;
      } else {
        mode := if vy < 0.0 then Rising else Falling;
      }
      result := Result(hit.Some?, y + footOffset > m.killY);
    }

    method Move(m: Map, horizontal: int, jump: bool, speed: real, dt: real) returns (result: Result)
      modifies this
      ensures View() == MoveStep(m, old(View()), horizontal, jump, speed, dt).0
      ensures result == MoveStep(m, old(View()), horizontal, jump, speed, dt).1
    {
      if jump && mode == Grounded {
        vy, mode, platformId := -JUMP_SPEED, Rising, 0;
      }
      vx := WalkSpeed(horizontal, speed);
      if mode == Grounded {
        var nextX := NextX(m, View(), dt);
        var p := FindPlatform(m.platforms, platformId);
        if p.Some? && Covers(p.value, nextX) {
          x, y, vy := nextX, p.value.y - footOffset, 0.0;
          return Result(false, false);
        }
        mode, platformId := Falling, 0;
      }
      result := Fall(m, dt);
    }

    method Climb(m: Map, c: Climbable, vertical: int, dt: real)
      modifies this
      ensures View() == ClimbStep(m, old(View()), c, vertical, dt)
    {
      var feet := ClimbFeet(View(), vertical, dt);
      x, vx, vy := c.x, 0.0, ClimbVy(vertical);
      if vertical < 0 && feet <= c.top {
        var top := FindPlatform(m.platforms, c.topPlatformId);
        if top.Some? {
          PlaceFeet(m, c.x, top.value.y);
          grabCooldown := GRAB_DELAY;
          return;
        }
      }
      if vertical > 0 && feet >= c.bottom {
        PlaceFeet(m, c.x, c.bottom);
        grabCooldown := GRAB_DELAY;
        return;
      }
      y := ClampReal(feet, c.top, c.bottom) - footOffset;
    }

    method Ready(m: Map, horizontal: int, vertical: int, jump: bool, dt: real)
      modifies this
      ensures View() == Prepare(m, old(View()), horizontal, vertical, jump, dt)
    {
      grabCooldown := MaxReal(0.0, grabCooldown - dt);
      if horizontal != 0 { facing := horizontal; }
      if mode == Grounded && Support(m.platforms, x, y + footOffset).None? {
        mode, platformId := Falling, 0;
      }
      if mode != Climbing && vertical != 0 && !jump && grabCooldown <= 0.0 {
        TryGrab(m);
      }
    }

    method StepBy(m: Map, input: Input, speed: real, dt: real) returns (result: Result)
      modifies this
      ensures View() == Step(m, old(View()), input, speed, dt).0
      ensures result == Step(m, old(View()), input, speed, dt).1
    {
      if dt <= 0.0 { return Result(false, false); }
      var horizontal, vertical := ClampInt(input.horizontal, -1, 1), ClampInt(input.vertical, -1, 1);
      Ready(m, horizontal, vertical, input.jump, dt);
      if mode == Climbing {
        var c := FindClimbable(m.climbables, climbableId);
        if c.None? || input.jump {
          mode := if input.jump then Rising else Falling;
          vy := if input.jump then -JUMP_SPEED else 0.0;
          climbableId, grabCooldown := 0, GRAB_DELAY;
        } else {
          Climb(m, c.value, vertical, dt);
          return Result(false, false);
        }
      }
      result := Move(m, horizontal, input.jump, speed, dt);
    }
  }
}
