/** What it means for a shot's ray to reach a position (server/src/CombatSimulation.cpp, lines 330-380). */
module Aim {
  import opened Prelude
  import opened Movement
  import opened Reals
  import opened Raycast

  function Sq(a: real): real { a * a }

  function Times(a: real, b: real): real { a * b }

  /** The point of the ray's line at a distance from the shooter. */
  function PointAt(f: Fire, ux: real, uy: real, t: real): (real, real) { (f.originX + ux * t, f.originY + uy * t) }

  function Apart(p: (real, real), q: (real, real)): real { Sq(p.0 - q.0) + Sq(p.1 - q.1) }

  /** No point of the line is nearer to the position than the one at t. */
  ghost predicate IsNearest(f: Fire, ux: real, uy: real, pos: (real, real), t: real) {
    forall u: real :: Apart(pos, PointAt(f, ux, uy, t)) <= Apart(pos, PointAt(f, ux, uy, u))
  }

  predicate IsUnit(ux: real, uy: real) { Sq(ux) + Sq(uy) == 1.0 }

  lemma Spread(a: real, b: real, k: real)
    ensures (a + b) * k == a * k + b * k
    ensures (a - b) * k == a * k - b * k
  {
  }

  lemma SquareMinus(a: real, b: real)
    ensures Sq(a - b) == Sq(a) - 2.0 * Times(a, b) + Sq(b)
  {
    Spread(a, b, a - b);
    Spread(a, b, a);
    Spread(a, b, b);
  }

  lemma SquareOfProduct(a: real, b: real)
    ensures Sq(a * b) == Sq(a) * Sq(b)
  {
    assert (a * b) * (a * b) == (a * a) * (b * b);
  }

  lemma Regroup(a: real, b: real, k: real)
    ensures a * (b * k) == (a * b) * k
  {
  }

  /** The square of the distance splits along the line and off it. */
  lemma Splits(f: Fire, ux: real, uy: real, pos: (real, real), t: real)
    requires IsUnit(ux, uy)
    ensures Apart(pos, PointAt(f, ux, uy, t)) == OffRaySq(f, ux, uy, pos) + Sq(t - AlongRay(f, ux, uy, pos))
  {
    var a, b, along := pos.0 - f.originX, pos.1 - f.originY, AlongRay(f, ux, uy, pos);
    SplitsFrom(a, b, ux, uy, along, t);
    assert pos.0 - PointAt(f, ux, uy, t).0 == a - ux * t && pos.1 - PointAt(f, ux, uy, t).1 == b - uy * t;
    assert pos.0 - (f.originX + ux * along) == a - ux * along && pos.1 - (f.originY + uy * along) == b - uy * along;
    hide IsUnit;
  }

  lemma SplitsFrom(a: real, b: real, ux: real, uy: real, dot: real, t: real)
    requires IsUnit(ux, uy) && dot == a * ux + b * uy
    ensures Sq(a - ux * t) + Sq(b - uy * t) == Sq(a - ux * dot) + Sq(b - uy * dot) + Sq(t - dot)
  {
    hide Sq, IsUnit, Times;
    OffLine(a, b, ux, uy, dot, t);
    OffLine(a, b, ux, uy, dot, dot);
    SquareMinus(t, dot);
    DotTimes(dot, t);
  }

  lemma DotTimes(dot: real, t: real)
    ensures Times(dot, dot) == Sq(dot) && Times(t, dot) == Times(dot, t)
  {
  }

  lemma OffLine(a: real, b: real, ux: real, uy: real, dot: real, t: real)
    requires IsUnit(ux, uy) && dot == a * ux + b * uy
    ensures Sq(a - ux * t) + Sq(b - uy * t) == Sq(a) + Sq(b) - 2.0 * Times(dot, t) + Sq(t)
  {
    hide Sq, IsUnit, Times;
    SquareMinus(a, ux * t);
    SquareMinus(b, uy * t);
    UnitSquares(ux, uy, t);
    UnitProducts(a, b, ux, uy, dot, t);
    AddUp(Sq(a - ux * t), Sq(b - uy * t), Sq(a), Sq(b), Times(a, ux * t), Times(b, uy * t), Sq(ux * t), Sq(uy * t), Sq(t), Times(dot, t));
  }

  lemma AddUp(left: real, right: real, a: real, b: real, ap: real, bq: real, p: real, q: real, t: real, dt: real)
    requires left == a - 2.0 * ap + p && right == b - 2.0 * bq + q && p + q == t && ap + bq == dt
    ensures left + right == a + b - 2.0 * dt + t
  {
  }

  lemma UnitSquares(ux: real, uy: real, t: real)
    requires IsUnit(ux, uy)
    ensures Sq(ux * t) + Sq(uy * t) == Sq(t)
  {
    var x, y, w := Sq(ux), Sq(uy), Sq(t);
    SquareOfProduct(ux, t);
    SquareOfProduct(uy, t);
    hide Sq;
    Spread(x, y, w);
    assert (x + y) * w == 1.0 * w;
  }

  lemma UnitProducts(a: real, b: real, ux: real, uy: real, dot: real, t: real)
    requires dot == a * ux + b * uy
    ensures Times(a, ux * t) + Times(b, uy * t) == Times(dot, t)
  {
    Regroup(a, ux, t);
    Regroup(b, uy, t);
    Spread(a * ux, b * uy, t);
  }

  lemma SquareIsZero(d: real)
    ensures Sq(d) >= 0.0 && (Sq(d) == 0.0 <==> d == 0.0)
  {
    if d > 0.0 {
      LongerIsLonger(d, 0.0);
    } else if d < 0.0 {
      LongerIsLonger(-d, 0.0);
      assert Sq(d) == Sq(-d);
    }
  }

  lemma NearestIsAlong(f: Fire, ux: real, uy: real, pos: (real, real), t: real)
    requires IsUnit(ux, uy)
    ensures IsNearest(f, ux, uy, pos, t) <==> t == AlongRay(f, ux, uy, pos)
  {
    var along := AlongRay(f, ux, uy, pos);
    hide Apart, PointAt, AlongRay, OffRaySq, Sq;
    Splits(f, ux, uy, pos, t);
    Splits(f, ux, uy, pos, along);
    SquareIsZero(t - along);
    SquareIsZero(along - along);
    forall u: real ensures Apart(pos, PointAt(f, ux, uy, along)) <= Apart(pos, PointAt(f, ux, uy, u)) {
      Splits(f, ux, uy, pos, u);
      SquareIsZero(u - along);
    }
  }

  /** The unit direction of a shot that has one. */
  lemma UnitDirection(norm: Norm, f: Fire)
    requires IsNorm(norm) && DirLengthSq(f) >= DIRECTION_EPSILON
    ensures norm(f.dirX, f.dirY) > 0.0 && IsUnit(f.dirX / norm(f.dirX, f.dirY), f.dirY / norm(f.dirX, f.dirY))
  {
    var len := norm(f.dirX, f.dirY);
    assert len * len == f.dirX * f.dirX + f.dirY * f.dirY;
    var ux, uy := f.dirX / len, f.dirY / len;
    assert ux * len == f.dirX && uy * len == f.dirY;
    SquareOfProduct(ux, len);
    SquareOfProduct(uy, len);
    assert Sq(f.dirX) + Sq(f.dirY) == Sq(len);
    FromSquares(Sq(ux), Sq(uy), Sq(len), Sq(f.dirX), Sq(f.dirY));
  }

  lemma FromSquares(x: real, y: real, k: real, p: real, q: real)
    requires k > 0.0 && x * k == p && y * k == q && p + q == k
    ensures x + y == 1.0
  {
    Spread(x, y, k);
    SameFactor(x + y, 1.0, k);
  }

  /**
   * A shot with a direction reaches a position at distance t exactly if t is where its line comes nearest to the position,
   * lies from 0 to the range ahead, and is within the hit radius of it; a shot without direction reaches nothing.
   */
  lemma ReachesExactly(norm: Norm, hitRadius: real, f: Fire, range: real, pos: (real, real), t: real)
    requires IsNorm(norm)
    ensures DirLengthSq(f) < DIRECTION_EPSILON ==> RayGeometry(norm, hitRadius)(f, range, pos) == None
    ensures DirLengthSq(f) >= DIRECTION_EPSILON ==>
              && norm(f.dirX, f.dirY) > 0.0
              && var ux, uy := f.dirX / norm(f.dirX, f.dirY), f.dirY / norm(f.dirX, f.dirY);
                 (RayGeometry(norm, hitRadius)(f, range, pos) == Some(t) <==>
                    && 0.0 <= t <= range && IsNearest(f, ux, uy, pos, t)
                    && Apart(pos, PointAt(f, ux, uy, t)) <= Sq(hitRadius))
  {
    if DirLengthSq(f) >= DIRECTION_EPSILON {
      UnitDirection(norm, f);
      var ux, uy := f.dirX / norm(f.dirX, f.dirY), f.dirY / norm(f.dirX, f.dirY);
      NearestIsAlong(f, ux, uy, pos, t);
      Splits(f, ux, uy, pos, AlongRay(f, ux, uy, pos));
      hide IsNorm, AlongRay, OffRaySq, DirLengthSq, Apart, PointAt, IsNearest, IsUnit;
    }
  }

  /** Nobody behind the shooter is hit. */
  lemma NobodyBehindIsHit(norm: Norm, hitRadius: real, f: Fire, range: real, pos: (real, real))
    requires IsNorm(norm) && (pos.0 - f.originX) * f.dirX + (pos.1 - f.originY) * f.dirY < 0.0
    ensures RayGeometry(norm, hitRadius)(f, range, pos) == None
  {
    if DirLengthSq(f) >= DIRECTION_EPSILON {
      UnitDirection(norm, f);
      var len := norm(f.dirX, f.dirY);
      var ux, uy := f.dirX / len, f.dirY / len;
      var along := AlongRay(f, ux, uy, pos);
      assert ux * len == f.dirX && uy * len == f.dirY;
      ScaledAlong(pos.0 - f.originX, pos.1 - f.originY, ux, uy, len);
      if along >= 0.0 { ProductNonNegative(along, len); }
      hide IsNorm, IsUnit, OffRaySq, DirLengthSq;
    }
  }

  lemma ScaledAlong(a: real, b: real, ux: real, uy: real, len: real)
    ensures (a * ux + b * uy) * len == a * (ux * len) + b * (uy * len)
  {
  }

  // ---------------------------------------------------------------------------------------------
  // Turning the scene
  // ---------------------------------------------------------------------------------------------

  function Turned(c: real, s: real, p: (real, real)): (real, real) { (c * p.0 - s * p.1, s * p.0 + c * p.1) }

  /** The scene turned by an angle of cosine c and sine s and then moved by d. */
  function Moved(c: real, s: real, d: (real, real), p: (real, real)): (real, real) {
    (Turned(c, s, p).0 + d.0, Turned(c, s, p).1 + d.1)
  }

  function MovedShot(c: real, s: real, d: (real, real), f: Fire): Fire {
    var origin, dir := Moved(c, s, d, (f.originX, f.originY)), Turned(c, s, (f.dirX, f.dirY));
    f.(originX := origin.0, originY := origin.1, dirX := dir.0, dirY := dir.1)
  }

  lemma TurningKeepsProducts(c: real, s: real, p: (real, real), q: (real, real))
    requires IsUnit(c, s)
    ensures var p', q' := Turned(c, s, p), Turned(c, s, q); p'.0 * q'.0 + p'.1 * q'.1 == p.0 * q.0 + p.1 * q.1
  {
    var a, b, x, y := p.0, p.1, q.0, q.1;
    assert (c * a - s * b) * (c * x - s * y) == c * c * (a * x) - c * s * (a * y) - c * s * (b * x) + s * s * (b * y);
    assert (s * a + c * b) * (s * x + c * y) == s * s * (a * x) + c * s * (a * y) + c * s * (b * x) + c * c * (b * y);
    assert (c * c + s * s) * (a * x + b * y) == a * x + b * y;
  }

  lemma TurningIsLinear(c: real, s: real, p: (real, real), q: (real, real))
    ensures Turned(c, s, (p.0 - q.0, p.1 - q.1)) == (Turned(c, s, p).0 - Turned(c, s, q).0, Turned(c, s, p).1 - Turned(c, s, q).1)
  {
    TimesDifference(c, p.0, q.0);
    TimesDifference(s, p.1, q.1);
    TimesDifference(s, p.0, q.0);
    TimesDifference(c, p.1, q.1);
    var d := Turned(c, s, (p.0 - q.0, p.1 - q.1));
    assert d.0 == c * (p.0 - q.0) - s * (p.1 - q.1);
    assert d.1 == s * (p.0 - q.0) + c * (p.1 - q.1);
    assert d.0 == Turned(c, s, p).0 - Turned(c, s, q).0;
    assert d.1 == Turned(c, s, p).1 - Turned(c, s, q).1;
  }

  lemma TimesDifference(k: real, a: real, b: real)
    ensures k * (a - b) == k * a - k * b
  {
  }

  /** Turning and moving shooter, shot and position together changes no answer. */
  lemma SceneMayTurn(norm: Norm, hitRadius: real, c: real, s: real, d: (real, real), f: Fire, range: real, pos: (real, real))
    requires IsNorm(norm) && IsUnit(c, s)
    ensures RayGeometry(norm, hitRadius)(MovedShot(c, s, d, f), range, Moved(c, s, d, pos)) == RayGeometry(norm, hitRadius)(f, range, pos)
  {
    var g, at := MovedShot(c, s, d, f), Moved(c, s, d, pos);
    var to, dir := (pos.0 - f.originX, pos.1 - f.originY), (f.dirX, f.dirY);
    var to', dir' := (at.0 - g.originX, at.1 - g.originY), (g.dirX, g.dirY);
    TurningIsLinear(c, s, pos, (f.originX, f.originY));
    assert to' == Turned(c, s, to) && dir' == Turned(c, s, dir);
    TurningKeepsProducts(c, s, dir, dir);
    TurningKeepsProducts(c, s, to, to);
    TurningKeepsProducts(c, s, to, dir);
    assert DirLengthSq(g) == DirLengthSq(f);
    SameLength(norm, g, f);
    if DirLengthSq(f) >= DIRECTION_EPSILON {
      UnitDirection(norm, f);
      UnitDirection(norm, g);
      SameAim(norm(f.dirX, f.dirY), f, g, pos, at);
      hide IsNorm, IsUnit, AlongRay, OffRaySq, DirLengthSq, Turned;
    }
  }

  lemma SameLength(norm: Norm, g: Fire, f: Fire)
    requires IsNorm(norm) && DirLengthSq(g) == DirLengthSq(f)
    ensures norm(g.dirX, g.dirY) == norm(f.dirX, f.dirY)
  {
    SameSquareSameSize(norm(g.dirX, g.dirY), norm(f.dirX, f.dirY));
  }

  /** What counts of a shot and a position: their products. */
  lemma SameAim(len: real, f: Fire, g: Fire, pos: (real, real), at: (real, real))
    requires len > 0.0 && IsUnit(f.dirX / len, f.dirY / len) && IsUnit(g.dirX / len, g.dirY / len)
    requires Sq(at.0 - g.originX) + Sq(at.1 - g.originY) == Sq(pos.0 - f.originX) + Sq(pos.1 - f.originY)
    requires (at.0 - g.originX) * g.dirX + (at.1 - g.originY) * g.dirY == (pos.0 - f.originX) * f.dirX + (pos.1 - f.originY) * f.dirY
    ensures AlongRay(g, g.dirX / len, g.dirY / len, at) == AlongRay(f, f.dirX / len, f.dirY / len, pos)
    ensures OffRaySq(g, g.dirX / len, g.dirY / len, at) == OffRaySq(f, f.dirX / len, f.dirY / len, pos)
  {
    OffByProducts(len, f, pos);
    OffByProducts(len, g, at);
    var a := AlongRay(f, f.dirX / len, f.dirY / len, pos);
    var b := AlongRay(g, g.dirX / len, g.dirY / len, at);
    SameFactor(a, b, len);
    hide AlongRay, OffRaySq, IsUnit;
  }

  lemma SameFactor(a: real, b: real, k: real)
    requires k > 0.0 && a * k == b * k
    ensures a == b
  {
    assert (a - b) * k == 0.0;
  }

  lemma OffByProducts(len: real, f: Fire, pos: (real, real))
    requires len > 0.0 && IsUnit(f.dirX / len, f.dirY / len)
    ensures var along := AlongRay(f, f.dirX / len, f.dirY / len, pos);
            && along * len == (pos.0 - f.originX) * f.dirX + (pos.1 - f.originY) * f.dirY
            && OffRaySq(f, f.dirX / len, f.dirY / len, pos) == Sq(pos.0 - f.originX) + Sq(pos.1 - f.originY) - Sq(along)
  {
    var ux, uy := f.dirX / len, f.dirY / len;
    assert ux * len == f.dirX && uy * len == f.dirY;
    ScaledAlong(pos.0 - f.originX, pos.1 - f.originY, ux, uy, len);
    OffFromOrigin(f, ux, uy, pos);
    hide IsUnit, OffRaySq, Sq;
  }

  lemma OffFromOrigin(f: Fire, ux: real, uy: real, pos: (real, real))
    requires IsUnit(ux, uy)
    ensures OffRaySq(f, ux, uy, pos) == Sq(pos.0 - f.originX) + Sq(pos.1 - f.originY) - Sq(AlongRay(f, ux, uy, pos))
  {
    hide IsUnit, OffRaySq, AlongRay;
    Splits(f, ux, uy, pos, 0.0);
    assert PointAt(f, ux, uy, 0.0) == (f.originX, f.originY);
    assert Sq(0.0 - AlongRay(f, ux, uy, pos)) == Sq(AlongRay(f, ux, uy, pos));
  }
}
