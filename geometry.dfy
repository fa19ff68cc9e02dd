/** The plane and line geometry of utils/geometry.py: normals, plane
    equations, plane-plane intersection lines, projection of a 3D line into a
    2D frame, meeting point of two 2D lines and net-slip displacement. */
module Geometry {
  import opened Numerics
  import opened LinearAlgebra

  /** The failures of the geometry functions. `BadPlane`, `WrongDimension`
      and `Singular` are exceptions in the source; `ZeroNorm` and
      `VerticalLine` are divisions by zero that numpy turns into non-finite
      values, made explicit here. */
  datatype Error =
    | BadPlane        // the plane is not a pair (dip, dip direction)
    | WrongDimension  // a vector or plane equation of the wrong length
    | ZeroNorm        // normalising a zero vector
    | VerticalLine    // the projected line is parallel to the frame's j axis
    | Singular        // zero determinant in the anchor solve
    | Parallel        // two 2D lines with the same slope

  datatype Result<T> = Ok(value: T) | Err(error: Error)

  datatype Option<T> = None | Some(value: T)

  /** A point of a 2D view, also a row (x, y) of a sampled polyline. */
  datatype Point2 = Point2(x: real, y: real)

  /** y == slope * x + intercept */
  datatype Line2 = Line2(slope: real, intercept: real)

  /** A 3D line: direction and a point on it (the source's `[vr, Pp]`). */
  datatype Line3 = Line3(direction: Vector, point: Vector)

  // ---------------------------------------------------------------------
  // normal_vector

  /** Horizontal vector along the strike, (sin(dd - 90), cos(dd - 90), 0). */
  function StrikeVector(num: Numerics, dipDirection: real): (u: Vector)
    ensures Is3(u) && u[2] == 0.0
  {
    [num.sin(dipDirection - 90.0), num.cos(dipDirection - 90.0), 0.0]
  }

  /** A horizontal vector of length one. */
  predicate HorizontalUnit(u: Vector)
  {
    Is3(u) && u[2] == 0.0 && u[0] * u[0] + u[1] * u[1] == 1.0
  }

  /** With exact trigonometry at `dd - 90` the strike vector is a
      horizontal unit vector. */
  lemma StrikeVectorUnit(num: Numerics, dipDirection: real)
    requires PythagoreanAt(num, dipDirection - 90.0)
    ensures HorizontalUnit(StrikeVector(num, dipDirection))
  {
  }

  /** Vector down the dip, (sin(dd), cos(dd), -tan(dip)). */
  function DipVector(num: Numerics, dip: real, dipDirection: real): (v: Vector)
    ensures Is3(v) && v[2] == -num.tan(dip)
  {
    [num.sin(dipDirection), num.cos(dipDirection), -num.tan(dip)]
  }

  /** The unnormalised normal `v x u`. */
  function RawNormal(num: Numerics, dip: real, dipDirection: real): (n: Vector)
    ensures Is3(n)
    ensures Dot(n, StrikeVector(num, dipDirection)) == 0.0
    ensures Dot(n, DipVector(num, dip, dipDirection)) == 0.0
  {
    Cross(DipVector(num, dip, dipDirection), StrikeVector(num, dipDirection))
  }

  /** `v / norm(v)`, where the norm is `sqrt(v . v)`. */
  function Normalize(num: Numerics, v: Vector): (r: Result<Vector>)
    requires Is3(v)
    ensures r.Err? <==> num.sqrt(Dot(v, v)) == 0.0
    ensures r.Err? ==> r.error == ZeroNorm
    ensures r.Ok? ==> Is3(r.value) && Scale(num.sqrt(Dot(v, v)), r.value) == v
  {
    var norm := num.sqrt(Dot(v, v));
    if norm == 0.0 then Err(ZeroNorm)
    else
      ScaleInverse(norm, v);
      Ok(Scale(1.0 / norm, v))
  }

  lemma ScaleInverse(c: real, v: Vector)
    requires Is3(v) && c != 0.0
    ensures Scale(c, Scale(1.0 / c, v)) == v
  {
    var w := Scale(c, Scale(1.0 / c, v));
    assert c * (1.0 / c) == 1.0;
    assert w[0] == v[0] && w[1] == v[1] && w[2] == v[2];
  }

  /** `normal_vector`: the plane must be a pair (dip, dip direction); the
      result is a multiple of `v x u`, so it is orthogonal to both the strike
      and the dip vector. */
  function NormalVector(num: Numerics, plane: seq<real>): (r: Result<Vector>)
    ensures r == Err(BadPlane) <==> |plane| != 2
    ensures r.Ok? ==>
      && |plane| == 2 && Is3(r.value)
      && Dot(r.value, StrikeVector(num, plane[1])) == 0.0
      && Dot(r.value, DipVector(num, plane[0], plane[1])) == 0.0
  {
    if |plane| != 2 then Err(BadPlane)
    else
      var n := RawNormal(num, plane[0], plane[1]);
      var r := Normalize(num, n);
      if r.Ok? then
        ScaledOrthogonal(r.value, num.sqrt(Dot(n, n)), StrikeVector(num, plane[1]));
        ScaledOrthogonal(r.value, num.sqrt(Dot(n, n)), DipVector(num, plane[0], plane[1]));
        r
      else r
  }

  lemma ScaledOrthogonal(r: Vector, s: real, w: Vector)
    requires Is3(r) && Is3(w) && s != 0.0
    requires Dot(Scale(s, r), w) == 0.0
    ensures Dot(r, w) == 0.0
  {
    assert Dot(Scale(s, r), w) == s * Dot(r, w);
  }

  /** Under the quarter-turn and Pythagorean laws at the dip direction,
      `v x u` is (tan(dip) sin(dd), tan(dip) cos(dd), 1). */
  lemma {:induction false} RawNormalUpward(num: Numerics, dip: real, dipDirection: real)
    requires QuarterTurnAt(num, dipDirection) && PythagoreanAt(num, dipDirection)
    ensures var n := RawNormal(num, dip, dipDirection);
            && n[0] == num.tan(dip) * num.sin(dipDirection)
            && n[1] == num.tan(dip) * num.cos(dipDirection)
            && n[2] == 1.0
  {
    var s, c, t := num.sin(dipDirection), num.cos(dipDirection), num.tan(dip);
    var u, v := StrikeVector(num, dipDirection), DipVector(num, dip, dipDirection);
    assert u[0] == -c && u[1] == s && u[2] == 0.0;
    assert v[0] == s && v[1] == c && v[2] == -t;
    var n := RawNormal(num, dip, dipDirection);
    assert n[0] == v[1] * u[2] - v[2] * u[1] == t * s;
    assert n[1] == v[2] * u[0] - v[0] * u[2] == t * c;
    assert n[2] == v[0] * u[1] - v[1] * u[0] == s * s + c * c == 1.0;
  }

  /** With an exact square root, normalising a nonzero vector succeeds and
      gives a unit vector with the same sign in every component. */
  lemma NormalizeUnit(num: Numerics, v: Vector)
    requires Is3(v) && Dot(v, v) > 0.0 && SqrtAt(num, Dot(v, v))
    ensures Normalize(num, v).Ok?
    ensures var n := Normalize(num, v).value;
            && Dot(n, n) == 1.0
            && (v[2] > 0.0 ==> n[2] > 0.0)
  {
    var q := Dot(v, v);
    var s := num.sqrt(q);
    assert s > 0.0 by {
      assert s >= 0.0 && s * s == q;
    }
    var n := Scale(1.0 / s, v);
    assert Normalize(num, v) == Ok(n);
    calc {
      Dot(n, n);
      (1.0 / s) * (1.0 / s) * q;
      q / (s * s);
      1.0;
    }
    assert n[2] == (1.0 / s) * v[2];
  }

  /** With exact trigonometry and square root, `normal_vector` of any pair
      succeeds and returns a unit vector pointing upwards. */
  lemma NormalVectorUnit(num: Numerics, dip: real, dipDirection: real)
    requires QuarterTurnAt(num, dipDirection) && PythagoreanAt(num, dipDirection)
    requires SqrtAt(num, Dot(RawNormal(num, dip, dipDirection), RawNormal(num, dip, dipDirection)))
    ensures NormalVector(num, [dip, dipDirection]).Ok?
    ensures var n := NormalVector(num, [dip, dipDirection]).value;
            Dot(n, n) == 1.0 && n[2] > 0.0
  {
    var raw := RawNormal(num, dip, dipDirection);
    RawNormalUpward(num, dip, dipDirection);
    assert Dot(raw, raw) == raw[0] * raw[0] + raw[1] * raw[1] + 1.0;
    NormalizeUnit(num, raw);
  }

  // ---------------------------------------------------------------------
  // lineEquation3Dto2D

  /** `lineEquation3Dto2D(A, v, i, j, k)`: all five vectors must have three
      components, and `p2 = j . (k x v)` must not be zero. The intercept is
      `m * (i . A) + (j . A)`, so the projected anchor `(i . A, j . A)` lies on
      `y == -m * x + a`, not on `y == m * x + a`. */
  function LineEquation3Dto2D(A: Vector, v: Vector, i: Vector, j: Vector, k: Vector): (r: Result<Line2>)
    ensures r == Err(WrongDimension) <==> !(Is3(A) && Is3(v) && Is3(i) && Is3(j) && Is3(k))
    ensures r == Err(VerticalLine) <==>
      Is3(A) && Is3(v) && Is3(i) && Is3(j) && Is3(k) && Dot(j, Cross(k, v)) == 0.0
    ensures r.Ok? ==>
      && Is3(A) && Is3(v) && Is3(i) && Is3(j) && Is3(k)
      && r.value.slope == Dot(i, Cross(k, v)) / Dot(j, Cross(k, v))
      && r.value.intercept == r.value.slope * Dot(i, A) + Dot(j, A)
      && Dot(j, A) == -r.value.slope * Dot(i, A) + r.value.intercept
  {
    if !(Is3(A) && Is3(v) && Is3(i) && Is3(j) && Is3(k)) then Err(WrongDimension)
    else
      var a1 := Dot(i, A);
      var a2 := Dot(j, A);
      var vp := Cross(k, v);
      var p1 := Dot(i, vp);
      var p2 := Dot(j, vp);
      if p2 == 0.0 then Err(VerticalLine)
      else
        var m := p1 / p2;
        var a := (a1 * p1 + a2 * p2) / p2;
        assert a == m * a1 + a2 by { DivSplit(a1 * p1, a2 * p2, p2); }
        Ok(Line2(m, a))
  }

  lemma DivSplit(x: real, y: real, d: real)
    requires d != 0.0
    ensures (x + y) / d == x / d + y / d
  {
  }

  /** A right-handed orthonormal-style frame as far as the projector needs:
      j x k == i and k x i == j. */
  predicate RightHanded(i: Vector, j: Vector, k: Vector)
    requires Is3(i) && Is3(j) && Is3(k)
  {
    Cross(j, k) == i && Cross(k, i) == j
  }

  /** In a right-handed frame the projector's slope is the negated slope of
      the projected line: every point `A + t v` of the 3D line projects onto
      `y == -m * x + a`, and `m == -(j . v) / (i . v)`. */
  lemma {:induction false} ProjectedLineNegatesSlope(A: Vector, v: Vector, i: Vector, j: Vector, k: Vector, t: real)
    requires Is3(A) && Is3(v) && Is3(i) && Is3(j) && Is3(k)
    requires RightHanded(i, j, k)
    requires LineEquation3Dto2D(A, v, i, j, k).Ok?
    ensures var l := LineEquation3Dto2D(A, v, i, j, k).value;
            var P := Add(A, Scale(t, v));
            && Dot(i, v) != 0.0
            && l.slope == -Dot(j, v) / Dot(i, v)
            && Dot(j, P) == -l.slope * Dot(i, P) + l.intercept
  {
    var l := LineEquation3Dto2D(A, v, i, j, k).value;
    TripleProductRotate(i, k, v);
    TripleProductRotate(j, k, v);
    assert Dot(i, Cross(k, v)) == Dot(v, Cross(i, k));
    assert Cross(i, k) == Neg(Cross(k, i));
    DotNeg(v, j);
    var p1 := -Dot(j, v);
    var p2 := Dot(i, v);
    assert Dot(i, Cross(k, v)) == p1;
    assert Dot(j, Cross(k, v)) == p2;
    assert p2 != 0.0;
    DotLinear(i, A, t, v);
    DotLinear(j, A, t, v);
    var P := Add(A, Scale(t, v));
    calc {
      -l.slope * Dot(i, P) + l.intercept;
      -l.slope * (Dot(i, A) + t * p2) + l.slope * Dot(i, A) + Dot(j, A);
      Dot(j, A) - l.slope * t * p2;
      { assert l.slope * p2 == p1; }
      Dot(j, A) - t * p1;
      Dot(j, P);
    }
  }

  /** Negating the anchor negates the intercept and keeps the slope; an
      anchor at the origin gives a zero intercept. */
  lemma {:induction false} LineEquationOdd(A: Vector, v: Vector, i: Vector, j: Vector, k: Vector)
    requires Is3(A) && Is3(v) && Is3(i) && Is3(j) && Is3(k)
    ensures var r := LineEquation3Dto2D(A, v, i, j, k);
            var s := LineEquation3Dto2D(Neg(A), v, i, j, k);
            && (r.Ok? <==> s.Ok?) && (r.Err? ==> s == r)
            && (r.Ok? ==> s.value == Line2(r.value.slope, -r.value.intercept))
            && (r.Ok? && A == Origin ==> r.value.intercept == 0.0)
  {
    DotNeg(i, A);
    DotNeg(j, A);
  }

  // ---------------------------------------------------------------------
  // cal_intersection

  /** `cal_intersection`: the meeting point of `y = a1 x + b1` and
      `y = a2 x + b2`, or None when the slopes are equal. */
  function CalIntersection(a1: real, b1: real, a2: real, b2: real): (r: Option<Point2>)
    ensures r.None? <==> a1 == a2
    ensures r.Some? ==> r.value.y == a1 * r.value.x + b1 && r.value.y == a2 * r.value.x + b2
  {
    if a1 - a2 == 0.0 then None
    else
      var x := (b2 - b1) / (a1 - a2);
      var y := a1 * (b2 - b1) / (a1 - a2) + b1;
      assert a2 * x + b2 == a1 * x + b1 by {
        assert (a1 - a2) * x == b2 - b1;
      }
      Some(Point2(x, y))
  }

  /** The meeting point is the only point on both lines. */
  lemma CalIntersectionUnique(a1: real, b1: real, a2: real, b2: real, p: Point2)
    requires a1 != a2
    requires p.y == a1 * p.x + b1 && p.y == a2 * p.x + b2
    ensures CalIntersection(a1, b1, a2, b2) == Some(p)
  {
    var q := CalIntersection(a1, b1, a2, b2).value;
    assert (a1 - a2) * p.x == b2 - b1;
    assert p.x == (b2 - b1) / (a1 - a2) == q.x;
    assert q.y == a1 * q.x + b1 == p.y;
  }

  /** Negating both slopes mirrors the meeting point in the y axis (the
      section view draws `y = m x + b` where the map view draws
      `y = -m x + b`). */
  lemma CalIntersectionMirror(a1: real, b1: real, a2: real, b2: real)
    requires a1 != a2
    ensures var p := CalIntersection(a1, b1, a2, b2).value;
            CalIntersection(-a1, b1, -a2, b2) == Some(Point2(-p.x, p.y))
  {
    var p := CalIntersection(a1, b1, a2, b2).value;
    CalIntersectionUnique(-a1, b1, -a2, b2, Point2(-p.x, p.y));
  }

  /** Two lines through the origin meet at the origin; negating one
      intercept when the other is zero negates the meeting point. */
  lemma CalIntersectionOdd(a1: real, a2: real, b: real)
    requires a1 != a2
    ensures CalIntersection(a1, 0.0, a2, 0.0) == Some(Point2(0.0, 0.0))
    ensures var p := CalIntersection(a1, 0.0, a2, b).value;
            CalIntersection(a1, 0.0, a2, -b) == Some(Point2(-p.x, -p.y))
  {
    CalIntersectionUnique(a1, 0.0, a2, 0.0, Point2(0.0, 0.0));
    var p := CalIntersection(a1, 0.0, a2, b).value;
    CalIntersectionUnique(a1, 0.0, a2, -b, Point2(-p.x, -p.y));
  }

  // ---------------------------------------------------------------------
  // plane_equation

  /** `Ax + By + Cz + D == 0` for the coefficients `E = [A, B, C, D]`. */
  predicate OnPlane(E: seq<real>, Q: Vector)
    requires |E| == 4 && Is3(Q)
  {
    E[0] * Q[0] + E[1] * Q[1] + E[2] * Q[2] + E[3] == 0.0
  }

  /** `plane_equation(n, P)`: both arguments must have three components;
      the result is `[n0, n1, n2, D]` with `n . P + D == 0`. */
  function PlaneEquation(n: Vector, P: Vector): (r: Result<seq<real>>)
    ensures r.Err? <==> !(Is3(n) && Is3(P))
    ensures r.Err? ==> r.error == WrongDimension
    ensures r.Ok? ==> Is3(n) && Is3(P) && |r.value| == 4 && r.value[..3] == n && OnPlane(r.value, P)
  {
    if !(Is3(n) && Is3(P)) then Err(WrongDimension)
    else
      var D := -n[0] * P[0] - n[1] * P[1] - n[2] * P[2];
      Ok([n[0], n[1], n[2], D])
  }

  /** The plane built from (n, P) holds exactly the points Q with
      n . (Q - P) == 0. */
  lemma PlaneEquationPoints(n: Vector, P: Vector, Q: Vector)
    requires Is3(n) && Is3(P) && Is3(Q)
    ensures OnPlane(PlaneEquation(n, P).value, Q) <==> Dot(n, Add(Q, Neg(P))) == 0.0
  {
  }

  /** A plane through the negated point has the negated constant term. */
  lemma PlaneEquationNeg(n: Vector, P: Vector)
    requires Is3(n) && Is3(P)
    ensures var E := PlaneEquation(n, P).value;
            PlaneEquation(n, Neg(P)) == Ok([E[0], E[1], E[2], -E[3]])
  {
    var N := Neg(P);
    assert N[0] == -P[0] && N[1] == -P[1] && N[2] == -P[2];
    var E := PlaneEquation(n, P).value;
    var F := PlaneEquation(n, N).value;
    assert F[3] == -n[0] * N[0] - n[1] * N[1] - n[2] * N[2] == -E[3];
    assert F == [E[0], E[1], E[2], -E[3]];
  }

  // ---------------------------------------------------------------------
  // plane_intersectionMap / plane_intersectionSection

  /** `np.linalg.inv([[a, b], [c, d]]).dot([e, f])`, or None for a zero
      determinant. */
  function Solve2(a: real, b: real, c: real, d: real, e: real, f: real): (r: Option<(real, real)>)
    ensures r.None? <==> a * d - b * c == 0.0
    ensures r.Some? ==> a * r.value.0 + b * r.value.1 == e && c * r.value.0 + d * r.value.1 == f
  {
    var det := a * d - b * c;
    if det == 0.0 then None
    else
      var x := (d * e - b * f) / det;
      var y := (a * f - c * e) / det;
      assert a * x + b * y == e by { CramerRow(a, b, c, d, e, f, det, x, y); }
      assert c * x + d * y == f by { CramerRow(d, c, b, a, f, e, det, y, x); }
      Some((x, y))
  }

  lemma CramerRow(a: real, b: real, c: real, d: real, e: real, f: real, det: real, x: real, y: real)
    requires det == a * d - b * c && det != 0.0
    requires x * det == d * e - b * f && y * det == a * f - c * e
    ensures a * x + b * y == e
  {
    assert (a * x + b * y) * det == a * (d * e - b * f) + b * (a * f - c * e);
    assert (a * x + b * y) * det == e * det;
  }

  /** The 2x2 system has at most one solution. */
  lemma Solve2Unique(a: real, b: real, c: real, d: real, e: real, f: real, x: real, y: real)
    requires a * d - b * c != 0.0
    requires a * x + b * y == e && c * x + d * y == f
    ensures Solve2(a, b, c, d, e, f) == Some((x, y))
  {
    var s := Solve2(a, b, c, d, e, f).value;
    var dx, dy := x - s.0, y - s.1;
    assert a * dx + b * dy == 0.0 && c * dx + d * dy == 0.0;
    assert (a * d - b * c) * dx == d * (a * dx + b * dy) - b * (c * dx + d * dy) == 0.0;
    assert (a * d - b * c) * dy == a * (c * dx + d * dy) - c * (a * dx + b * dy) == 0.0;
    assert dx == 0.0 / (a * d - b * c) == 0.0;
    assert dy == 0.0 / (a * d - b * c) == 0.0;
  }

  /** `plane_intersectionMap`: direction `n1 x n2`, nonzero whenever the
      anchor exists; anchor at y == 0 from
      `A1 x + C1 z == D1`, `A2 x + C2 z == D2` (the constant terms enter
      with their own sign). A zero determinant fails: the source sets
      `X = None` and then indexes it. */
  function PlaneIntersectionMap(P1: seq<real>, P2: seq<real>): (r: Result<Line3>)
    ensures r == Err(WrongDimension) <==> |P1| != 4 || |P2| != 4
    ensures r == Err(Singular) <==> |P1| == 4 && |P2| == 4 && P1[0] * P2[2] - P1[2] * P2[0] == 0.0
    ensures r.Ok? ==>
      && |P1| == 4 && |P2| == 4 && Is3(r.value.direction) && Is3(r.value.point)
      && Dot(r.value.direction, P1[..3]) == 0.0 && Dot(r.value.direction, P2[..3]) == 0.0
      && r.value.direction == Cross(P1[..3], P2[..3])
      && r.value.direction[1] == -(P1[0] * P2[2] - P1[2] * P2[0]) && r.value.direction != Origin
      && r.value.point[1] == 0.0
      && P1[0] * r.value.point[0] + P1[2] * r.value.point[2] == P1[3]
      && P2[0] * r.value.point[0] + P2[2] * r.value.point[2] == P2[3]
  {
    if |P1| != 4 || |P2| != 4 then Err(WrongDimension)
    else
      var vr := Cross(P1[..3], P2[..3]);
      match Solve2(P1[0], P1[2], P2[0], P2[2], P1[3], P2[3])
      case None => Err(Singular)
      case Some(X) => Ok(Line3(vr, [X.0, 0.0, X.1]))
  }

  /** `plane_intersectionSection`: as the map variant, anchored at z == 0
      from `A1 x + B1 y == D1`, `A2 x + B2 y == D2`. */
  function PlaneIntersectionSection(P1: seq<real>, P2: seq<real>): (r: Result<Line3>)
    ensures r == Err(WrongDimension) <==> |P1| != 4 || |P2| != 4
    ensures r == Err(Singular) <==> |P1| == 4 && |P2| == 4 && P1[0] * P2[1] - P1[1] * P2[0] == 0.0
    ensures r.Ok? ==>
      && |P1| == 4 && |P2| == 4 && Is3(r.value.direction) && Is3(r.value.point)
      && Dot(r.value.direction, P1[..3]) == 0.0 && Dot(r.value.direction, P2[..3]) == 0.0
      && r.value.direction == Cross(P1[..3], P2[..3])
      && r.value.direction[2] == P1[0] * P2[1] - P1[1] * P2[0] && r.value.direction != Origin
      && r.value.point[2] == 0.0
      && P1[0] * r.value.point[0] + P1[1] * r.value.point[1] == P1[3]
      && P2[0] * r.value.point[0] + P2[1] * r.value.point[1] == P2[3]
  {
    if |P1| != 4 || |P2| != 4 then Err(WrongDimension)
    else
      var vr := Cross(P1[..3], P2[..3]);
      match Solve2(P1[0], P1[1], P2[0], P2[1], P1[3], P2[3])
      case None => Err(Singular)
      case Some(X) => Ok(Line3(vr, [X.0, X.1, 0.0]))
  }

  /** The anchor lies on a plane exactly when that plane's constant term is
      zero; the negated anchor, and the whole line through it along the
      direction, lies on both planes. Stated for the map variant. */
  lemma {:induction false} MapAnchorOnPlanes(P1: seq<real>, P2: seq<real>, t: real)
    requires PlaneIntersectionMap(P1, P2).Ok?
    ensures var l := PlaneIntersectionMap(P1, P2).value;
            && (OnPlane(P1, l.point) <==> P1[3] == 0.0)
            && (OnPlane(P2, l.point) <==> P2[3] == 0.0)
            && OnPlane(P1, Add(Neg(l.point), Scale(t, l.direction)))
            && OnPlane(P2, Add(Neg(l.point), Scale(t, l.direction)))
  {
    var l := PlaneIntersectionMap(P1, P2).value;
    LineOnPlane(P1, l.point, l.direction, t);
    LineOnPlane(P2, l.point, l.direction, t);
  }

  /** The section-variant counterpart of MapAnchorOnPlanes. */
  lemma {:induction false} SectionAnchorOnPlanes(P1: seq<real>, P2: seq<real>, t: real)
    requires PlaneIntersectionSection(P1, P2).Ok?
    ensures var l := PlaneIntersectionSection(P1, P2).value;
            && (OnPlane(P1, l.point) <==> P1[3] == 0.0)
            && (OnPlane(P2, l.point) <==> P2[3] == 0.0)
            && OnPlane(P1, Add(Neg(l.point), Scale(t, l.direction)))
            && OnPlane(P2, Add(Neg(l.point), Scale(t, l.direction)))
  {
    var l := PlaneIntersectionSection(P1, P2).value;
    LineOnPlane(P1, l.point, l.direction, t);
    LineOnPlane(P2, l.point, l.direction, t);
  }

  /** A point X with `n . X == D` (instead of `-D`): X is on the plane iff
      D == 0, and `-X + t w` is on it for every w orthogonal to n. */
  lemma LineOnPlane(E: seq<real>, X: Vector, w: Vector, t: real)
    requires |E| == 4 && Is3(X) && Is3(w)
    requires Dot(E[..3], X) == E[3] && Dot(w, E[..3]) == 0.0
    ensures OnPlane(E, X) <==> E[3] == 0.0
    ensures OnPlane(E, Add(Neg(X), Scale(t, w)))
  {
    var n := E[..3];
    assert n[0] == E[0] && n[1] == E[1] && n[2] == E[2];
    DotLinear(n, Neg(X), t, w);
    DotNeg(n, X);
  }

  /** The sign conventions at work when a plane is built through a point P
      and then intersected with a plane through the origin: the anchor lies
      on the plane with the same normal through -P, and on the other plane. */
  lemma {:induction false} AnchorOnReflectedPlane(n: Vector, P: Vector, E2: seq<real>)
    requires Is3(n) && Is3(P) && |E2| == 4 && E2[3] == 0.0
    ensures var E := PlaneEquation(n, P).value;
            var R := PlaneEquation(n, Neg(P)).value;
            && (PlaneIntersectionSection(E, E2).Ok? ==>
                  var X := PlaneIntersectionSection(E, E2).value.point;
                  OnPlane(R, X) && OnPlane(E2, X))
            && (PlaneIntersectionMap(E, E2).Ok? ==>
                  var X := PlaneIntersectionMap(E, E2).value.point;
                  OnPlane(R, X) && OnPlane(E2, X))
  {
    var E := PlaneEquation(n, P).value;
    var R := PlaneEquation(n, Neg(P)).value;
    PlaneEquationNeg(n, P);
    assert R[..3] == E[..3] && R[3] == -E[3];
  }

  /** Two coincident planes (the same coefficients) are reported as
      degenerate by both intersection variants. */
  lemma CoincidentPlanesSingular(P: seq<real>)
    requires |P| == 4
    ensures PlaneIntersectionMap(P, P) == Err(Singular)
    ensures PlaneIntersectionSection(P, P) == Err(Singular)
  {
  }

  /** Negating the first plane's constant term negates the anchor and keeps
      the direction, when the second plane passes through the origin. */
  lemma {:induction false} SectionAnchorOdd(P1: seq<real>, P2: seq<real>)
    requires |P1| == 4 && |P2| == 4 && P2[3] == 0.0
    ensures var N1 := [P1[0], P1[1], P1[2], -P1[3]];
            var r := PlaneIntersectionSection(P1, P2);
            var s := PlaneIntersectionSection(N1, P2);
            && (r.Ok? <==> s.Ok?) && (r.Err? ==> s == r)
            && (r.Ok? ==> s.value == Line3(r.value.direction, Neg(r.value.point)))
  {
    var N1 := [P1[0], P1[1], P1[2], -P1[3]];
    assert N1[..3] == P1[..3];
    var r := PlaneIntersectionSection(P1, P2);
    if r.Ok? {
      var X := r.value.point;
      Solve2Unique(N1[0], N1[1], P2[0], P2[1], N1[3], P2[3], -X[0], -X[1]);
    }
  }

  /** The map-variant counterpart of SectionAnchorOdd. */
  lemma {:induction false} MapAnchorOdd(P1: seq<real>, P2: seq<real>)
    requires |P1| == 4 && |P2| == 4 && P2[3] == 0.0
    ensures var N1 := [P1[0], P1[1], P1[2], -P1[3]];
            var r := PlaneIntersectionMap(P1, P2);
            var s := PlaneIntersectionMap(N1, P2);
            && (r.Ok? <==> s.Ok?) && (r.Err? ==> s == r)
            && (r.Ok? ==> s.value == Line3(r.value.direction, Neg(r.value.point)))
  {
    var N1 := [P1[0], P1[1], P1[2], -P1[3]];
    assert N1[..3] == P1[..3];
    var r := PlaneIntersectionMap(P1, P2);
    if r.Ok? {
      var X := r.value.point;
      Solve2Unique(N1[0], N1[2], P2[0], P2[2], N1[3], P2[3], -X[0], -X[2]);
    }
  }

  /** Two planes through the origin meet in a line anchored at the origin. */
  lemma OriginAnchors(P1: seq<real>, P2: seq<real>)
    requires |P1| == 4 && |P2| == 4 && P1[3] == 0.0 && P2[3] == 0.0
    ensures PlaneIntersectionSection(P1, P2).Ok? ==> PlaneIntersectionSection(P1, P2).value.point == Origin
    ensures PlaneIntersectionMap(P1, P2).Ok? ==> PlaneIntersectionMap(P1, P2).value.point == Origin
  {
    if PlaneIntersectionSection(P1, P2).Ok? {
      Solve2Unique(P1[0], P1[1], P2[0], P2[1], 0.0, 0.0, 0.0, 0.0);
    }
    if PlaneIntersectionMap(P1, P2).Ok? {
      Solve2Unique(P1[0], P1[2], P2[0], P2[2], 0.0, 0.0, 0.0, 0.0);
    }
  }

  // ---------------------------------------------------------------------
  // apply_netslip

  /** `apply_netslip(P, v, a)`: `P + a v` componentwise; P and v must have
      the same length (any length). */
  function ApplyNetSlip(P: seq<real>, v: seq<real>, a: real): (r: Result<seq<real>>)
    ensures r.Err? <==> |P| != |v|
    ensures r.Err? ==> r.error == WrongDimension
    ensures r.Ok? ==> |r.value| == |P| && forall n :: 0 <= n < |P| ==> r.value[n] == P[n] + a * v[n]
  {
    if |P| != |v| then Err(WrongDimension)
    else Ok(seq(|P|, n requires 0 <= n < |P| => P[n] + a * v[n]))
  }

  /** A zero magnitude leaves the point where it is; slipping by `a` and
      then by `b` along the same vector is slipping by `a + b`, so slipping
      back by `-a` undoes a slip. */
  lemma ApplyNetSlipCompose(P: seq<real>, v: seq<real>, a: real, b: real)
    requires |P| == |v|
    ensures ApplyNetSlip(P, v, 0.0) == Ok(P)
    ensures ApplyNetSlip(ApplyNetSlip(P, v, a).value, v, b) == ApplyNetSlip(P, v, a + b)
    ensures ApplyNetSlip(ApplyNetSlip(P, v, a).value, v, -a) == Ok(P)
  {
    var Q := ApplyNetSlip(P, v, a).value;
    assert ApplyNetSlip(P, v, 0.0).value == P;
    assert ApplyNetSlip(Q, v, b).value == ApplyNetSlip(P, v, a + b).value;
    assert ApplyNetSlip(Q, v, -a).value == P;
  }

  /** Slipping the origin gives the scaled direction. */
  lemma ApplyNetSlipFromOrigin(v: Vector, a: real)
    requires Is3(v)
    ensures ApplyNetSlip(Origin, v, a) == Ok(Scale(a, v))
  {
    var r := ApplyNetSlip(Origin, v, a).value;
    assert |r| == 3 && r[0] == a * v[0] && r[1] == a * v[1] && r[2] == a * v[2];
    assert r == Scale(a, v);
  }
}
