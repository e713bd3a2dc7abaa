/** The player and camera of the game client (public/game.js): guarded
    single-point movement over the mask, the ping-pong sprite animation, the
    camera that follows the player, and the per-frame update that ties them
    together. Drawing, image loading and event listeners are not modelled. */
module Game {
  import opened Mask

  datatype Pos = Pos(x: int, y: int)

  /** The animation part of the player: the sprite frame shown, the
      direction the frame index moves in, and the tick counter. */
  datatype Anim = Anim(frame: int, dir: int, timer: int)

  /** The sprite images, indexed by `frame`. */
  const CharacterFrames: seq<string> :=
    ["character1.PNG", "character2.PNG", "character3.PNG", "character4.PNG"]

  /** The frame advances on the tick that takes the timer above this. */
  const TimerLimit: int := 6

  /** The animation state the player starts with. */
  const StartAnim: Anim := Anim(0, 1, 0)

  // ---------------------------------------------------------------------
  // Animation

  /** The animation invariant: the frame indexes a sprite, the direction is
      a unit step that points back into range at both ends, and the timer
      has been reset or is still counting up to the limit. */
  predicate AnimInv(a: Anim)
  {
    && 0 <= a.frame < |CharacterFrames|
    && (a.dir == 1 || a.dir == -1)
    && (a.frame == 0 ==> a.dir == 1)
    && (a.frame == |CharacterFrames| - 1 ==> a.dir == -1)
    && 0 <= a.timer <= TimerLimit
  }

  /** One `updateAnimation` call on values. The frame moves by at most one
      `dir` step, and only on a call that resets the timer; on every other
      call only the timer counts up. The literals 3 and 0 are the last and
      the first index of `CharacterFrames`, as `AnimInv` states them. */
  function Tick(a: Anim): (r: Anim)
    ensures r.frame == a.frame || (r.frame == a.frame + a.dir && r.timer == 0)
    ensures r.timer == 0 || r == a.(timer := a.timer + 1)
  {
    var timer := a.timer + 1;
    if timer > TimerLimit then
      var frame := a.frame + a.dir;
      var dir := if frame == 3 then -1 else a.dir;
      var dir' := if frame == 0 then 1 else dir;
      Anim(frame, dir', 0)
    else
      Anim(a.frame, a.dir, timer)
  }

  /** The animation state after `n` calls of `updateAnimation`. From a
      timer in range, the timer is the call count modulo 7. */
  function Ticks(a: Anim, n: nat): (r: Anim)
    ensures 0 <= a.timer <= TimerLimit ==> r.timer == (a.timer + n) % 7
  {
    if n == 0 then a
    else
      CountStep(a.timer + n - 1);
      Tick(Ticks(a, n - 1))
  }

  /** How one more call moves the quotient and remainder of a call count
      by 7, and the phase of the six-step cycle. */
  lemma CountStep(m: int)
    ensures m % 7 < 6 ==> (m + 1) / 7 == m / 7 && (m + 1) % 7 == m % 7 + 1
    ensures m % 7 == 6 ==> (m + 1) / 7 == m / 7 + 1 && (m + 1) % 7 == 0
    ensures (m / 7 + 1) % 6 == ((m / 7) % 6 + 1) % 6
  {
  }

  /** One call keeps the invariant; the frame moves by exactly `dir` on the
      call that takes the timer past the limit and on no other call, which
      otherwise only counts the timer up. */
  lemma TickStep(a: Anim)
    requires AnimInv(a)
    ensures AnimInv(Tick(a))
    ensures Tick(a).frame != a.frame <==> a.timer == TimerLimit
    ensures a.timer == TimerLimit ==> Tick(a).frame == a.frame + a.dir && Tick(a).timer == 0
    ensures a.timer < TimerLimit ==> Tick(a) == a.(timer := a.timer + 1)
  {
  }

  /** Any number of calls keeps the invariant, so `characterImgs[player.frame]`
      always names one of the four sprites. */
  lemma {:induction false} TicksKeepInvariant(a: Anim, n: nat)
    requires AnimInv(a)
    ensures AnimInv(Ticks(a, n))
    ensures 0 <= Ticks(a, n).frame < |CharacterFrames|
  {
    if n > 0 {
      TicksKeepInvariant(a, n - 1);
      TickStep(Ticks(a, n - 1));
    }
  }

  /** The frames and directions of the ping-pong cycle 0,1,2,3,2,1. */
  const CycleFrames: seq<int> := [0, 1, 2, 3, 2, 1]
  const CycleDirs: seq<int> := [1, 1, 1, -1, -1, -1]

  /** From the start state, the frame shown after `n` calls is fixed by
      `n`: it changes every seventh call and walks the ping-pong cycle. */
  lemma {:induction false} TicksFromStart(n: nat)
    ensures Ticks(StartAnim, n) == Anim(CycleFrames[(n / 7) % 6], CycleDirs[(n / 7) % 6], n % 7)
  {
    if n > 0 {
      var m := n - 1;
      TicksFromStart(m);
      CountStep(m);
      var k := (m / 7) % 6;
      var prev := Ticks(StartAnim, m);
      assert prev == Anim(CycleFrames[k], CycleDirs[k], m % 7);
      assert Ticks(StartAnim, n) == Tick(prev);
      if m % 7 < 6 {
        assert (n / 7) % 6 == k;
      } else {
        assert (n / 7) % 6 == (k + 1) % 6;
      }
    }
  }

  /** The animation repeats every 42 calls (six frame steps of seven calls). */
  lemma AnimationPeriod(n: nat)
    ensures Ticks(StartAnim, n + 42) == Ticks(StartAnim, n)
  {
    TicksFromStart(n);
    TicksFromStart(n + 42);
    PhaseShift(n);
  }

  /** Forty-two calls are six whole frame steps. */
  lemma PhaseShift(n: nat)
    ensures ((n + 42) / 7) % 6 == (n / 7) % 6 && (n + 42) % 7 == n % 7
  {
  }

  // ---------------------------------------------------------------------
  // Movement

  /** `keys[name]` is truthy: the key has been pressed and not released. */
  predicate Held(keys: map<string, bool>, name: string): (r: bool)
    ensures name !in keys ==> !r
    ensures name in keys ==> (r <==> keys[name])
  {
    name in keys && keys[name]
  }

  /** One `move(dx, dy)` on values: the player lands on the destination when
      that single point is walkable and stays put otherwise. */
  function MoveTo(m: Grid, p: Pos, dx: int, dy: int): (r: Pos)
    requires m.Valid()
    ensures r == p || (r == Pos(p.x + dx, p.y + dy) && CanWalk(m, r.x, r.y))
    ensures CanWalk(m, p.x + dx, p.y + dy) ==> r == Pos(p.x + dx, p.y + dy)
  {
    if CanWalk(m, p.x + dx, p.y + dy) then Pos(p.x + dx, p.y + dy) else p
  }

  /** A displacement of at most one step of `speed`, either way. */
  predicate UnitStep(d: int, speed: int)
  {
    d == -speed || d == 0 || d == speed
  }

  /** The Up and Down checks: the player moves along y only, by at most one
      step, and is on walkable ground unless neither move was taken. */
  function DispatchVertical(m: Grid, p: Pos, speed: int, keys: map<string, bool>): (r: Pos)
    requires m.Valid()
    ensures r.x == p.x && UnitStep(r.y - p.y, speed)
    ensures r == p || CanWalk(m, r.x, r.y)
  {
    var p1 := if Held(keys, "ArrowUp") then MoveTo(m, p, 0, -speed) else p;
    if Held(keys, "ArrowDown") then MoveTo(m, p1, 0, speed) else p1
  }

  /** The Left and Right checks: the player moves along x only, by at most
      one step, and is on walkable ground unless neither move was taken. */
  function DispatchHorizontal(m: Grid, p: Pos, speed: int, keys: map<string, bool>): (r: Pos)
    requires m.Valid()
    ensures r.y == p.y && UnitStep(r.x - p.x, speed)
    ensures r == p || CanWalk(m, r.x, r.y)
  {
    var p1 := if Held(keys, "ArrowLeft") then MoveTo(m, p, -speed, 0) else p;
    if Held(keys, "ArrowRight") then MoveTo(m, p1, speed, 0) else p1
  }

  /** The key dispatch of one frame on values: up to four single-axis moves,
      Up, Down, Left, Right, each checked on its own. Each axis ends at most
      one step from where it started, and the player is on walkable ground
      unless no move was taken. */
  function Dispatch(m: Grid, p: Pos, speed: int, keys: map<string, bool>): (r: Pos)
    requires m.Valid()
    ensures UnitStep(r.x - p.x, speed) && UnitStep(r.y - p.y, speed)
    ensures r == p || CanWalk(m, r.x, r.y)
  {
    DispatchHorizontal(m, DispatchVertical(m, p, speed, keys), speed, keys)
  }

  /** The position after a run of frames, one key state per frame: the
      player ends on walkable ground unless it never moved. */
  function Walk(m: Grid, p: Pos, speed: int, frames: seq<map<string, bool>>): (r: Pos)
    requires m.Valid()
    ensures r == p || CanWalk(m, r.x, r.y)
    decreases |frames|
  {
    if frames == [] then p else Walk(m, Dispatch(m, p, speed, frames[0]), speed, frames[1..])
  }

  /** A player who starts on walkable ground never leaves it, however the
      keys are pressed. */
  lemma {:induction false} WalkStaysWalkable(m: Grid, p: Pos, speed: int, frames: seq<map<string, bool>>)
    requires m.Valid() && CanWalk(m, p.x, p.y)
    ensures var q := Walk(m, p, speed, frames); CanWalk(m, q.x, q.y)
    decreases |frames|
  {
    if frames != [] {
      WalkStaysWalkable(m, Dispatch(m, p, speed, frames[0]), speed, frames[1..]);
    }
  }

  /** Until the mask has loaded, no key moves the player. */
  lemma UnloadedMaskBlocksMovement(m: Grid, p: Pos, speed: int, keys: map<string, bool>)
    requires m.Valid() && !m.loaded
    ensures Dispatch(m, p, speed, keys) == p
  {
  }

  /** Up and Right held against a wall above: the blocked vertical step does
      not stop the horizontal one, so the player slides along the wall. */
  lemma SlideAlongWall(m: Grid, p: Pos, speed: int, keys: map<string, bool>)
    requires m.Valid()
    requires Held(keys, "ArrowUp") && !Held(keys, "ArrowDown")
    requires !Held(keys, "ArrowLeft") && Held(keys, "ArrowRight")
    requires !CanWalk(m, p.x, p.y - speed) && CanWalk(m, p.x + speed, p.y)
    ensures Dispatch(m, p, speed, keys) == Pos(p.x + speed, p.y)
  {
  }

  /** Up and Down held with both points open: the two steps cancel. */
  lemma UpDownCancel(m: Grid, p: Pos, speed: int, keys: map<string, bool>)
    requires m.Valid()
    requires Held(keys, "ArrowUp") && Held(keys, "ArrowDown")
    requires !Held(keys, "ArrowLeft") && !Held(keys, "ArrowRight")
    requires CanWalk(m, p.x, p.y - speed) && CanWalk(m, p.x, p.y)
    ensures Dispatch(m, p, speed, keys) == p
  {
  }

  // ---------------------------------------------------------------------
  // Camera

  /** The sizes `updateCamera` reads: the canvas and the map image. */
  datatype View = View(canvasWidth: nat, canvasHeight: nat, mapWidth: nat, mapHeight: nat)

  function Min(a: real, b: real): real { if a <= b then a else b }
  function Max(a: real, b: real): real { if a >= b then a else b }

  /** One axis of `updateCamera`: the offset that centres the viewport on the
      player, clamped so that the viewport stays on the map (to the near
      edge when centring would leave it); on a map narrower than the canvas
      it is pinned to 0. */
  function CameraAxis(pos: int, canvasSize: nat, mapSize: nat): (c: real)
    ensures c >= 0.0
    ensures mapSize >= canvasSize ==> c <= (mapSize - canvasSize) as real
    ensures mapSize <= canvasSize ==> c == 0.0
    ensures var centred := pos as real - canvasSize as real / 2.0;
            0.0 <= centred <= (mapSize as int - canvasSize as int) as real ==> c == centred
    ensures var centred := pos as real - canvasSize as real / 2.0;
            mapSize >= canvasSize && centred < 0.0 ==> c == 0.0
    ensures var centred := pos as real - canvasSize as real / 2.0;
            mapSize >= canvasSize && centred > (mapSize - canvasSize) as real ==> c == (mapSize - canvasSize) as real
  {
    var centred := pos as real - canvasSize as real / 2.0;
    Max(0.0, Min(centred, (mapSize as int - canvasSize as int) as real))
  }

  /** A player on the map is always inside the viewport. */
  lemma PlayerOnScreen(pos: int, canvasSize: nat, mapSize: nat)
    requires 0 <= pos <= mapSize
    ensures 0.0 <= pos as real - CameraAxis(pos, canvasSize, mapSize) <= canvasSize as real
  {
  }

  // ---------------------------------------------------------------------
  // State

  /** The `player` record. */
  class Player {
    var x: int
    var y: int
    var speed: int
    var size: int
    var frame: int
    var dir: int
    var timer: int

    /** The player as the page creates it, at the spawn point on the road. */
    constructor ()
      ensures Position() == Pos(820, 810) && speed == 4 && size == 80
      ensures Animation() == StartAnim
      ensures Valid()
    {
      x, y := 820, 810;
      speed, size := 4, 80;
      frame, dir, timer := 0, 1, 0;
    }

    function Position(): Pos
      reads this
    {
      Pos(x, y)
    }

    function Animation(): Anim
      reads this
    {
      Anim(frame, dir, timer)
    }

    /** The animation invariant holds of the fields. */
    predicate Valid()
      reads this
    {
      AnimInv(Animation())
    }

    /** `move(dx, dy)`: commit the translation only if the destination point
        is walkable; no other field changes. */
    method Move(m: Grid, dx: int, dy: int)
      requires m.Valid()
      modifies this`x, this`y
      ensures Position() == MoveTo(m, old(Position()), dx, dy)
      ensures speed == old(speed) && size == old(size) && Animation() == old(Animation())
    {
      var nx := x + dx;
      var ny := y + dy;
      if CanWalk(m, nx, ny) {
        x := nx;
        y := ny;
      }
    }

    /** `updateAnimation()`: count the timer up and, past the limit, step the
        frame, turn at either end and reset the timer. */
    method UpdateAnimation()
      modifies this`frame, this`dir, this`timer
      ensures Animation() == Tick(old(Animation()))
      ensures old(Valid()) ==> Valid()
      ensures Position() == old(Position()) && speed == old(speed) && size == old(size)
    {
      timer := timer + 1;
      if timer > TimerLimit {
        frame := frame + dir;
        if frame == 3 {
          dir := -1;
        }
        if frame == 0 {
          dir := 1;
        }
        timer := 0;
      }
      if old(Valid()) {
        TickStep(old(Animation()));
      }
    }
  }

  /** The `camera` record. */
  class Camera {
    var x: real
    var y: real

    constructor ()
      ensures x == 0.0 && y == 0.0
    {
      x, y := 0.0, 0.0;
    }

    /** `updateCamera()`: centre on the player, then clamp each axis to the
        map. */
    method Update(p: Player, v: View)
      modifies this
      ensures x == CameraAxis(p.x, v.canvasWidth, v.mapWidth)
      ensures y == CameraAxis(p.y, v.canvasHeight, v.mapHeight)
    {
      x := p.x as real - v.canvasWidth as real / 2.0;
      y := p.y as real - v.canvasHeight as real / 2.0;

      x := Max(0.0, Min(x, (v.mapWidth as int - v.canvasWidth as int) as real));
      y := Max(0.0, Min(y, (v.mapHeight as int - v.canvasHeight as int) as real));
    }
  }

  /** The key checks at the top of `gameLoop`: Up, Down, Left, Right, each
      a separate `move` of one speed step along one axis. */
  method DispatchKeys(p: Player, m: Grid, keys: map<string, bool>)
    requires m.Valid()
    modifies p`x, p`y
    ensures p.Position() == Dispatch(m, old(p.Position()), p.speed, keys)
  {
    ghost var p0 := p.Position();
    if Held(keys, "ArrowUp") {
      p.Move(m, 0, -p.speed);
    }
    ghost var p1 := p.Position();
    assert p1 == if Held(keys, "ArrowUp") then MoveTo(m, p0, 0, -p.speed) else p0;
    if Held(keys, "ArrowDown") {
      p.Move(m, 0, p.speed);
    }
    ghost var p2 := p.Position();
    assert p2 == if Held(keys, "ArrowDown") then MoveTo(m, p1, 0, p.speed) else p1;
    assert p2 == DispatchVertical(m, p0, p.speed, keys);
    if Held(keys, "ArrowLeft") {
      p.Move(m, -p.speed, 0);
    }
    ghost var p3 := p.Position();
    assert p3 == if Held(keys, "ArrowLeft") then MoveTo(m, p2, -p.speed, 0) else p2;
    if Held(keys, "ArrowRight") {
      p.Move(m, p.speed, 0);
    }
  }

  /** The state update of one `gameLoop` frame: the key dispatch, the
      animation step and the camera. Afterwards the sprite frame to draw is a
      valid index when the animation invariant held before. */
  method UpdateFrame(p: Player, camera: Camera, m: Grid, keys: map<string, bool>, v: View)
    requires m.Valid()
    modifies p, camera
    ensures p.Position() == Dispatch(m, old(p.Position()), old(p.speed), keys)
    ensures p.Animation() == Tick(old(p.Animation()))
    ensures p.speed == old(p.speed) && p.size == old(p.size)
    ensures camera.x == CameraAxis(p.x, v.canvasWidth, v.mapWidth)
    ensures camera.y == CameraAxis(p.y, v.canvasHeight, v.mapHeight)
    ensures old(p.Valid()) ==> p.Valid() && 0 <= p.frame < |CharacterFrames|
  {
    DispatchKeys(p, m, keys);
    p.UpdateAnimation();
    camera.Update(p, v);
  }
}
