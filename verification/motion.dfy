/** One frame of a moving cat: repulsion from close neighbours, integration,
    friction, bouncing off the canvas walls, clamping into the canvas and
    moving the eye marker along. */
module Motion {
  import opened Cats

  /** The largest speed, per axis, that repulsion may leave a cat with. */
  const MAX_VELOCITY: real := 3.0

  /** The share of its velocity a cat keeps from one frame to the next. */
  const FRICTION: real := 0.98

  function Max(a: real, b: real): real
  {
    if a < b then b else a
  }

  function Min(a: real, b: real): real
  {
    if a < b then a else b
  }

  function Abs(a: real): real
  {
    if a < 0.0 then -a else a
  }

  /** `max(lo, min(hi, v))`: `v` brought into `[lo, hi]` (the nearer end when
      it lies outside), and `lo` when that interval is empty. */
  function Clamp(lo: real, hi: real, v: real): (r: real)
    ensures lo <= hi ==> lo <= r <= hi
    ensures lo <= v <= hi ==> r == v
    ensures lo <= hi && v < lo ==> r == lo
    ensures lo <= hi && hi < v ==> r == hi
    ensures hi < lo ==> r == lo
  {
    Max(lo, Min(hi, v))
  }

  /** Each velocity component lies within the speed limit. */
  predicate InSpeedLimit(v: Vec)
  {
    -MAX_VELOCITY <= v.x <= MAX_VELOCITY && -MAX_VELOCITY <= v.y <= MAX_VELOCITY
  }

  /** Each velocity component clamped to the speed limit on its own: a
      component within it is kept, one beyond it lands on the limit. */
  function LimitVelocity(v: Vec): (r: Vec)
    ensures InSpeedLimit(r)
    ensures InSpeedLimit(v) ==> r == v
    ensures -MAX_VELOCITY <= v.x <= MAX_VELOCITY ==> r.x == v.x
    ensures v.x > MAX_VELOCITY ==> r.x == MAX_VELOCITY
    ensures v.x < -MAX_VELOCITY ==> r.x == -MAX_VELOCITY
    ensures -MAX_VELOCITY <= v.y <= MAX_VELOCITY ==> r.y == v.y
    ensures v.y > MAX_VELOCITY ==> r.y == MAX_VELOCITY
    ensures v.y < -MAX_VELOCITY ==> r.y == -MAX_VELOCITY
  {
    Vec(Clamp(-MAX_VELOCITY, MAX_VELOCITY, v.x), Clamp(-MAX_VELOCITY, MAX_VELOCITY, v.y))
  }

  /** The repulsion pass: for every neighbour closer than the threshold, in
      array order, its impulse is added to the velocity and the result is
      clamped to the speed limit. The impulses stand for the distance-based
      pushes the game computes; they are inputs here. */
  function Repel(vel: Vec, impulses: seq<Vec>): (r: Vec)
    ensures |impulses| == 0 ==> r == vel
    ensures |impulses| > 0 ==> InSpeedLimit(r)
    decreases |impulses|
  {
    if |impulses| == 0 then vel
    else Repel(LimitVelocity(Add(vel, impulses[0])), impulses[1..])
  }

  /** The sum of a list of impulses. */
  function Sum(impulses: seq<Vec>): Vec
    decreases |impulses|
  {
    if |impulses| == 0 then Vec(0.0, 0.0) else Add(impulses[0], Sum(impulses[1..]))
  }

  /** Adding the impulses one by one, the running velocity never leaves the
      speed limit, so no clamp changes it. */
  predicate ClampNeverBites(vel: Vec, impulses: seq<Vec>)
    decreases |impulses|
  {
    || |impulses| == 0
    || (InSpeedLimit(Add(vel, impulses[0])) && ClampNeverBites(Add(vel, impulses[0]), impulses[1..]))
  }

  /** When no running velocity leaves the speed limit, repulsion is plain
      addition of all the impulses. */
  lemma {:induction false} RepelWithinLimitAddsAll(vel: Vec, impulses: seq<Vec>)
    requires ClampNeverBites(vel, impulses)
    ensures Repel(vel, impulses) == Add(vel, Sum(impulses))
    decreases |impulses|
  {
    if |impulses| > 0 {
      var next := Add(vel, impulses[0]);
      assert LimitVelocity(next) == next;
      RepelWithinLimitAddsAll(next, impulses[1..]);
      assert Add(next, Sum(impulses[1..])) == Add(vel, Sum(impulses));
    }
  }

  /** A clamp that bites on the last impulse puts that component on the
      speed limit. */
  lemma RepelLastClampHitsLimit(vel: Vec, impulses: seq<Vec>)
    requires |impulses| > 0
    ensures var before := Repel(vel, impulses[..|impulses| - 1]);
      var pushed := Add(before, impulses[|impulses| - 1]);
      && (pushed.x > MAX_VELOCITY ==> Repel(vel, impulses).x == MAX_VELOCITY)
      && (pushed.x < -MAX_VELOCITY ==> Repel(vel, impulses).x == -MAX_VELOCITY)
      && (pushed.y > MAX_VELOCITY ==> Repel(vel, impulses).y == MAX_VELOCITY)
      && (pushed.y < -MAX_VELOCITY ==> Repel(vel, impulses).y == -MAX_VELOCITY)
  {
    RepelSnoc(vel, impulses);
  }

  /** Repulsion over a list is repulsion over all but the last impulse,
      followed by one more add-and-clamp step. */
  lemma {:induction false} RepelSnoc(vel: Vec, impulses: seq<Vec>)
    requires |impulses| > 0
    ensures Repel(vel, impulses) ==
      LimitVelocity(Add(Repel(vel, impulses[..|impulses| - 1]), impulses[|impulses| - 1]))
    decreases |impulses|
  {
    if |impulses| > 1 {
      var first := LimitVelocity(Add(vel, impulses[0]));
      var rest := impulses[1..];
      RepelSnoc(first, rest);
      assert rest[..|rest| - 1] == impulses[..|impulses| - 1][1..];
      assert rest[|rest| - 1] == impulses[|impulses| - 1];
    }
  }

  /** The velocity after friction and the wall bounces, and the position
      before the clamp, for a cat that moved with velocity `v`. */
  function Integrate(c: Cat, w: real, h: real, v: Vec): (Vec, Vec)
  {
    var x := c.body.x + v.x;
    var y := c.body.y + v.y;
    var fx := v.x * FRICTION;
    var fy := v.y * FRICTION;
    var dx := if x <= c.width / 2.0 || x >= w - c.width / 2.0 then -fx else fx;
    var dy := if y <= c.height / 2.0 || y >= h - c.height / 2.0 then -fy else fy;
    (Vec(x, y), Vec(dx, dy))
  }

  /** One frame of motion for cat `c` on a `w` by `h` canvas, with the
      repulsion impulses of its close neighbours. */
  function MoveCat(c: Cat, w: real, h: real, impulses: seq<Vec>): (r: Cat)
    ensures r.width == c.width && r.height == c.height && r.color == c.color
    ensures r.eyeSide == c.eyeSide && r.eyeOffset == c.eyeOffset
    ensures EyeFollows(r)
    ensures c.width <= w ==> c.width / 2.0 <= r.body.x <= w - c.width / 2.0
    ensures c.height <= h ==> c.height / 2.0 <= r.body.y <= h - c.height / 2.0
    ensures Abs(r.vel.x) == FRICTION * Abs(Repel(c.vel, impulses).x)
    ensures Abs(r.vel.y) == FRICTION * Abs(Repel(c.vel, impulses).y)
    ensures InSpeedLimit(c.vel) || |impulses| > 0 ==> InSpeedLimit(r.vel)
  {
    var v := Repel(c.vel, impulses);
    var (pos, vel) := Integrate(c, w, h, v);
    var body := Vec(
      Clamp(c.width / 2.0, w - c.width / 2.0, pos.x),
      Clamp(c.height / 2.0, h - c.height / 2.0, pos.y));
    c.(body := body, vel := vel, eye := Add(body, c.eyeOffset))
  }

  /** Away from the walls a frame is plain integration with friction: the
      body moves by its velocity and keeps 98% of it. */
  lemma InteriorMoveIsPlain(c: Cat, w: real, h: real, impulses: seq<Vec>)
    ensures var v := Repel(c.vel, impulses);
      c.width / 2.0 < c.body.x + v.x < w - c.width / 2.0 ==>
        MoveCat(c, w, h, impulses).body.x == c.body.x + v.x
        && MoveCat(c, w, h, impulses).vel.x == FRICTION * v.x
    ensures var v := Repel(c.vel, impulses);
      c.height / 2.0 < c.body.y + v.y < h - c.height / 2.0 ==>
        MoveCat(c, w, h, impulses).body.y == c.body.y + v.y
        && MoveCat(c, w, h, impulses).vel.y == FRICTION * v.y
  {
  }

  /** A cat that runs into a wall is put back on the wall and sent back the
      way it came. */
  lemma BounceTurnsInward(c: Cat, w: real, h: real, impulses: seq<Vec>)
    requires c.width <= w && c.height <= h
    ensures var v := Repel(c.vel, impulses); var r := MoveCat(c, w, h, impulses);
      && (c.body.x + v.x <= c.width / 2.0 && v.x < 0.0 ==> r.vel.x > 0.0 && r.body.x == c.width / 2.0)
      && (c.body.x + v.x >= w - c.width / 2.0 && v.x > 0.0 ==> r.vel.x < 0.0 && r.body.x == w - c.width / 2.0)
      && (c.body.y + v.y <= c.height / 2.0 && v.y < 0.0 ==> r.vel.y > 0.0 && r.body.y == c.height / 2.0)
      && (c.body.y + v.y >= h - c.height / 2.0 && v.y > 0.0 ==> r.vel.y < 0.0 && r.body.y == h - c.height / 2.0)
  {
  }
}
