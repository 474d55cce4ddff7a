// The two Bounds loops of Inc/VecMat.h: componentwise minimum and maximum of a point array,
// written through reference parameters, and the largest per-axis span as the result.

module Bounds {
  import opened Vectors

  /** A coordinate a float can hold: within [-FLT_MAX, FLT_MAX]. */
  predicate InFloatRange(r: real)
  {
    -FltMax <= r <= FltMax
  }

  /** The coordinates of one axis of a point sequence. */
  function Xs2(ps: seq<Vec2>): (r: seq<real>) ensures |r| == |ps| { seq(|ps|, k requires 0 <= k < |ps| => ps[k].x) }
  function Ys2(ps: seq<Vec2>): (r: seq<real>) ensures |r| == |ps| { seq(|ps|, k requires 0 <= k < |ps| => ps[k].y) }
  function Xs3(ps: seq<Vec3>): (r: seq<real>) ensures |r| == |ps| { seq(|ps|, k requires 0 <= k < |ps| => ps[k].x) }
  function Ys3(ps: seq<Vec3>): (r: seq<real>) ensures |r| == |ps| { seq(|ps|, k requires 0 <= k < |ps| => ps[k].y) }
  function Zs3(ps: seq<Vec3>): (r: seq<real>) ensures |r| == |ps| { seq(|ps|, k requires 0 <= k < |ps| => ps[k].z) }

  /** What the loop keeps of one running minimum: a lower bound of the coordinates seen, never
      above the FLT_MAX sentinel, and either still the sentinel or one of the coordinates. */
  ghost predicate MinSoFar(cs: seq<real>, m: real)
  {
    (forall j :: 0 <= j < |cs| ==> m <= cs[j]) && m <= FltMax &&
    (m == FltMax || exists j :: 0 <= j < |cs| && cs[j] == m)
  }

  /** The same for a running maximum and the -FLT_MAX sentinel. */
  ghost predicate MaxSoFar(cs: seq<real>, m: real)
  {
    (forall j :: 0 <= j < |cs| ==> cs[j] <= m) && m >= -FltMax &&
    (m == -FltMax || exists j :: 0 <= j < |cs| && cs[j] == m)
  }

  /** One loop step: `min.x < p.x ? min.x : p.x` and `max.x > p.x ? max.x : p.x`. */
  lemma {:induction false} MinMaxStep(cs: seq<real>, lo: real, hi: real, c: real)
    requires MinSoFar(cs, lo) && MaxSoFar(cs, hi)
    ensures MinSoFar(cs + [c], if lo < c then lo else c)
    ensures MaxSoFar(cs + [c], if hi > c then hi else c)
  {
    var cs' := cs + [c];
    var lo' := if lo < c then lo else c;
    var hi' := if hi > c then hi else c;
    assert cs'[|cs|] == c;
    if lo' != FltMax && lo' == lo {
      var j :| 0 <= j < |cs| && cs[j] == lo;
      assert cs'[j] == lo;
    }
    if hi' != -FltMax && hi' == hi {
      var j :| 0 <= j < |cs| && cs[j] == hi;
      assert cs'[j] == hi;
    }
  }

  /** When every coordinate is within float range, a bound over a non-empty sequence is attained. */
  lemma {:induction false} BoundAttained(cs: seq<real>, lo: real, hi: real)
    requires MinSoFar(cs, lo) && MaxSoFar(cs, hi) && |cs| > 0
    requires forall j :: 0 <= j < |cs| ==> InFloatRange(cs[j])
    ensures exists j :: 0 <= j < |cs| && cs[j] == lo
    ensures exists j :: 0 <= j < |cs| && cs[j] == hi
  {
    assert InFloatRange(cs[0]);
    if lo == FltMax { assert cs[0] == lo; }
    if hi == -FltMax { assert cs[0] == hi; }
  }

  /** Every point lies componentwise between lo and hi. */
  ghost predicate Contains2(ps: seq<Vec2>, lo: Vec2, hi: Vec2)
  {
    forall i :: 0 <= i < |ps| ==> lo.x <= ps[i].x <= hi.x && lo.y <= ps[i].y <= hi.y
  }

  ghost predicate Contains3(ps: seq<Vec3>, lo: Vec3, hi: Vec3)
  {
    forall i :: 0 <= i < |ps| ==>
      lo.x <= ps[i].x <= hi.x && lo.y <= ps[i].y <= hi.y && lo.z <= ps[i].z <= hi.z
  }

  /** Every coordinate is one a float can hold. */
  ghost predicate InRange2(ps: seq<Vec2>)
  {
    forall i :: 0 <= i < |ps| ==> InFloatRange(ps[i].x) && InFloatRange(ps[i].y)
  }

  ghost predicate InRange3(ps: seq<Vec3>)
  {
    forall i :: 0 <= i < |ps| ==> InFloatRange(ps[i].x) && InFloatRange(ps[i].y) && InFloatRange(ps[i].z)
  }

  /** Each component of lo and of hi is the coordinate of some point. */
  ghost predicate Attains2(ps: seq<Vec2>, lo: Vec2, hi: Vec2)
  {
    (exists i :: 0 <= i < |ps| && ps[i].x == lo.x) && (exists i :: 0 <= i < |ps| && ps[i].y == lo.y) &&
    (exists i :: 0 <= i < |ps| && ps[i].x == hi.x) && (exists i :: 0 <= i < |ps| && ps[i].y == hi.y)
  }

  ghost predicate Attains3(ps: seq<Vec3>, lo: Vec3, hi: Vec3)
  {
    (exists i :: 0 <= i < |ps| && ps[i].x == lo.x) && (exists i :: 0 <= i < |ps| && ps[i].y == lo.y) &&
    (exists i :: 0 <= i < |ps| && ps[i].z == lo.z) &&
    (exists i :: 0 <= i < |ps| && ps[i].x == hi.x) && (exists i :: 0 <= i < |ps| && ps[i].y == hi.y) &&
    (exists i :: 0 <= i < |ps| && ps[i].z == hi.z)
  }

  /** `dif.x > dif.y? dif.x : dif.y`: the larger of the two spans. */
  function LargestSpan2(dif: Vec2): (r: real)
    ensures r >= dif.x && r >= dif.y
    ensures r == dif.x || r == dif.y
  {
    if dif.x > dif.y then dif.x else dif.y
  }

  /** The nested conditional of the vec3 Bounds: the largest of the three spans. */
  function LargestSpan3(dif: Vec3): (r: real)
    ensures r >= dif.x && r >= dif.y && r >= dif.z
    ensures r == dif.x || r == dif.y || r == dif.z
  {
    if dif.x > dif.y then (if dif.z > dif.x then dif.z else dif.x)
    else (if dif.z > dif.y then dif.z else dif.y)
  }

  /** float Bounds(vec2 *points, int npoints, vec2 &min, vec2 &max).
      min and max start at vec2(FLT_MAX) and its negation; a non-positive npoints leaves them there. */
  method Bounds2(points: array<Vec2>, npoints: int) returns (span: real, lo: Vec2, hi: Vec2)
    requires npoints <= points.Length
    ensures npoints <= 0 ==> lo == Splat2(FltMax) && hi == Splat2(-FltMax)
    ensures npoints > 0 ==> Contains2(points[..npoints], lo, hi)
    ensures npoints > 0 && InRange2(points[..npoints]) ==> Attains2(points[..npoints], lo, hi)
    ensures lo.x <= FltMax && lo.y <= FltMax && hi.x >= -FltMax && hi.y >= -FltMax
    ensures span >= hi.x - lo.x && span >= hi.y - lo.y
    ensures span == hi.x - lo.x || span == hi.y - lo.y
  {
    lo := Splat2(FltMax);
    hi := Neg2(lo);
    var i := 0;
    while i < npoints
      invariant 0 <= i <= if npoints < 0 then 0 else npoints
      invariant Running2(points[..i], lo, hi)
    {
      var p := points[i];
      Step2(points[..i], lo, hi, p);
      assert points[..i + 1] == points[..i] + [p];
      lo := Vec2(if lo.x < p.x then lo.x else p.x, if lo.y < p.y then lo.y else p.y);
      hi := Vec2(if hi.x > p.x then hi.x else p.x, if hi.y > p.y then hi.y else p.y);
      i := i + 1;
    }
    if npoints > 0 {
      assert points[..i] == points[..npoints];
      Bounds2Facts(points[..npoints], lo, hi);
    }
    span := LargestSpan2(Sub2(hi, lo));
  }

  /** The running bounds of the vec2 loop, one step of it, and what they give at the end. */
  ghost predicate Running2(ps: seq<Vec2>, lo: Vec2, hi: Vec2)
  {
    MinSoFar(Xs2(ps), lo.x) && MaxSoFar(Xs2(ps), hi.x) &&
    MinSoFar(Ys2(ps), lo.y) && MaxSoFar(Ys2(ps), hi.y)
  }

  lemma {:induction false} Step2(ps: seq<Vec2>, lo: Vec2, hi: Vec2, p: Vec2)
    requires Running2(ps, lo, hi)
    ensures Running2(ps + [p],
      Vec2(if lo.x < p.x then lo.x else p.x, if lo.y < p.y then lo.y else p.y),
      Vec2(if hi.x > p.x then hi.x else p.x, if hi.y > p.y then hi.y else p.y))
  {
    MinMaxStep(Xs2(ps), lo.x, hi.x, p.x);
    MinMaxStep(Ys2(ps), lo.y, hi.y, p.y);
    assert Xs2(ps + [p]) == Xs2(ps) + [p.x];
    assert Ys2(ps + [p]) == Ys2(ps) + [p.y];
  }

  lemma {:induction false} Bounds2Facts(ps: seq<Vec2>, lo: Vec2, hi: Vec2)
    requires Running2(ps, lo, hi)
    ensures Contains2(ps, lo, hi)
    ensures |ps| > 0 && InRange2(ps) ==> Attains2(ps, lo, hi)
  {
    var xs, ys := Xs2(ps), Ys2(ps);
    assert forall j :: 0 <= j < |ps| ==> xs[j] == ps[j].x && ys[j] == ps[j].y;
    if |ps| > 0 && InRange2(ps) {
      BoundAttained(xs, lo.x, hi.x);
      BoundAttained(ys, lo.y, hi.y);
    }
  }

  /** The running bounds of the vec3 loop, and one step of it. */
  ghost predicate Running3(ps: seq<Vec3>, lo: Vec3, hi: Vec3)
  {
    MinSoFar(Xs3(ps), lo.x) && MaxSoFar(Xs3(ps), hi.x) &&
    MinSoFar(Ys3(ps), lo.y) && MaxSoFar(Ys3(ps), hi.y) &&
    MinSoFar(Zs3(ps), lo.z) && MaxSoFar(Zs3(ps), hi.z)
  }

  lemma {:induction false} Step3(ps: seq<Vec3>, lo: Vec3, hi: Vec3, p: Vec3)
    requires Running3(ps, lo, hi)
    ensures Running3(ps + [p],
      Vec3(if lo.x < p.x then lo.x else p.x, if lo.y < p.y then lo.y else p.y, if lo.z < p.z then lo.z else p.z),
      Vec3(if hi.x > p.x then hi.x else p.x, if hi.y > p.y then hi.y else p.y, if hi.z > p.z then hi.z else p.z))
  {
    MinMaxStep(Xs3(ps), lo.x, hi.x, p.x);
    MinMaxStep(Ys3(ps), lo.y, hi.y, p.y);
    MinMaxStep(Zs3(ps), lo.z, hi.z, p.z);
    assert Xs3(ps + [p]) == Xs3(ps) + [p.x];
    assert Ys3(ps + [p]) == Ys3(ps) + [p.y];
    assert Zs3(ps + [p]) == Zs3(ps) + [p.z];
  }

  /** What the running bounds of the vec3 loop say about the points themselves. */
  lemma {:induction false} Bounds3Facts(ps: seq<Vec3>, lo: Vec3, hi: Vec3)
    requires Running3(ps, lo, hi)
    ensures Contains3(ps, lo, hi)
    ensures |ps| > 0 && InRange3(ps) ==> Attains3(ps, lo, hi)
  {
    var xs, ys, zs := Xs3(ps), Ys3(ps), Zs3(ps);
    assert forall j :: 0 <= j < |ps| ==> xs[j] == ps[j].x && ys[j] == ps[j].y && zs[j] == ps[j].z;
    if |ps| > 0 && InRange3(ps) {
      BoundAttained(xs, lo.x, hi.x);
      BoundAttained(ys, lo.y, hi.y);
      BoundAttained(zs, lo.z, hi.z);
    }
  }

  /** float Bounds(vec3 *points, int npoints, vec3 &min, vec3 &max). */
  method Bounds3(points: array<Vec3>, npoints: int) returns (span: real, lo: Vec3, hi: Vec3)
    requires npoints <= points.Length
    ensures npoints <= 0 ==> lo == Splat3(FltMax) && hi == Splat3(-FltMax)
    ensures npoints > 0 ==> Contains3(points[..npoints], lo, hi)
    ensures npoints > 0 && InRange3(points[..npoints]) ==> Attains3(points[..npoints], lo, hi)
    ensures lo.x <= FltMax && lo.y <= FltMax && lo.z <= FltMax
    ensures hi.x >= -FltMax && hi.y >= -FltMax && hi.z >= -FltMax
    ensures span >= hi.x - lo.x && span >= hi.y - lo.y && span >= hi.z - lo.z
    ensures span == hi.x - lo.x || span == hi.y - lo.y || span == hi.z - lo.z
  {
    lo := Splat3(FltMax);
    hi := Neg3(lo);
    var i := 0;
    while i < npoints
      invariant 0 <= i <= if npoints < 0 then 0 else npoints
      invariant Running3(points[..i], lo, hi)
    {
      var p := points[i];
      Step3(points[..i], lo, hi, p);
      assert points[..i + 1] == points[..i] + [p];
      lo := Vec3(if lo.x < p.x then lo.x else p.x, if lo.y < p.y then lo.y else p.y,
                 if lo.z < p.z then lo.z else p.z);
      hi := Vec3(if hi.x > p.x then hi.x else p.x, if hi.y > p.y then hi.y else p.y,
                 if hi.z > p.z then hi.z else p.z);
      i := i + 1;
    }
    if npoints > 0 {
      assert points[..i] == points[..npoints];
      Bounds3Facts(points[..npoints], lo, hi);
    }
    span := LargestSpan3(Sub3(hi, lo));
  }
}
