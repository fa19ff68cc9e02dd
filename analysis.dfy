/** The computation of `section_map` (utils/analysis.py): the dip-direction
    nudge and restore, the rake fold and slip sign, the planes of the fault,
    the footwall and hangingwall bedding and the two views, their traces and
    cut-off points in a vertical section and in map view, the sampled
    polylines, the dip-direction fold and the block trimming. */
module Analysis {
  import opened Numerics
  import opened LinearAlgebra
  import opened Geometry
  import opened Trimming

  // ---------------------------------------------------------------------
  // Angle handling

  /** The value a dip direction of exactly 90 is replaced by. */
  const Nudged: real := 90.00001

  /** A dip direction of exactly 90 is moved off 90; any other is kept. */
  function NudgeDipDirection(d: real): (r: real)
    ensures r != 90.0
    ensures d != 90.0 ==> r == d
  {
    if d == 90.0 then Nudged else d
  }

  /** The fault's value is set back to 90 when it reads the nudged value. */
  function RestoreDipDirection(d: real): (r: real)
    ensures r == 90.0 <==> d == Nudged || d == 90.0
    ensures d != Nudged ==> r == d
  {
    if d == Nudged then 90.0 else d
  }

  /** Restoring undoes the nudge for every dip direction but the nudged
      value itself, which comes back as 90. */
  lemma NudgeThenRestore(d: real)
    ensures RestoreDipDirection(NudgeDipDirection(d)) == if d == Nudged then 90.0 else d
  {
  }

  /** The rake passed to the stereonet conversion: rakes in [180, 360) are
      folded back by 180, every other value (360 included) is kept. */
  function FoldRake(rake: real): (r: real)
    ensures 0.0 <= rake < 360.0 ==> 0.0 <= r < 180.0
    ensures r == rake - 180.0 <==> 180.0 <= rake < 360.0
    ensures r != rake - 180.0 ==> r == rake
  {
    if rake >= 180.0 && rake < 360.0 then rake - 180.0 else rake
  }

  /** The slip vector is reversed for every rake from 180 up, 360 included. */
  predicate SlipReversed(rake: real)
  {
    rake >= 180.0
  }

  /** A rake of 360 is neither folded nor kept in its sense: it is used as
      360 and its slip vector is reversed, unlike a rake of 0. */
  lemma RakeFullTurn()
    ensures FoldRake(360.0) == 360.0 && SlipReversed(360.0)
    ensures FoldRake(0.0) == 0.0 && !SlipReversed(0.0)
  {
  }

  /** Dip directions above 180 are folded back by 180. */
  function FoldDipDirection(d: real): (r: real)
    ensures 0.0 <= d <= 360.0 ==> 0.0 <= r <= 180.0
    ensures r == d || r == d - 180.0
    ensures r == d - 180.0 <==> d > 180.0
  {
    if d > 180.0 then d - 180.0 else d
  }

  // ---------------------------------------------------------------------
  // Net slip

  /** (sin(bearing), cos(bearing), -tan(plunge)). */
  function TrendVector(num: Numerics, plunge: real, bearing: real): (v: Vector)
    ensures Is3(v)
  {
    [num.sin(bearing), num.cos(bearing), -num.tan(plunge)]
  }

  /** The net-slip vector before normalisation: the trend vector of the
      folded rake, reversed when the rake is 180 or more. */
  function RawNetSlip(num: Numerics, fault: seq<real>, rake: real): (v: Vector)
    requires |fault| == 2
    ensures Is3(v)
    ensures var pb := num.rakeToPlungeBearing(fault[1] - 90.0, fault[0], FoldRake(rake));
            var t := TrendVector(num, pb.0, pb.1);
            && Dot(v, v) == Dot(t, t)
            && (SlipReversed(rake) ==> v == Neg(t))
            && (!SlipReversed(rake) ==> v == t)
  {
    var pb := num.rakeToPlungeBearing(fault[1] - 90.0, fault[0], FoldRake(rake));
    var t := TrendVector(num, pb.0, pb.1);
    if SlipReversed(rake) then Neg(t) else t
  }

  /** The unit net-slip vector `u_ns`. */
  function NetSlipDirection(num: Numerics, fault: seq<real>, rake: real): (r: Result<Vector>)
    requires |fault| == 2
    ensures var v := RawNetSlip(num, fault, rake);
            && (r.Err? <==> num.sqrt(Dot(v, v)) == 0.0)
            && (r.Ok? ==> Is3(r.value) && Scale(num.sqrt(Dot(v, v)), r.value) == v)
  {
    Normalize(num, RawNetSlip(num, fault, rake))
  }

  /** A rake and the same rake plus 180 give opposite slip vectors. */
  lemma {:induction false} NetSlipOpposite(num: Numerics, fault: seq<real>, rake: real)
    requires |fault| == 2 && 0.0 <= rake < 180.0
    ensures var r := NetSlipDirection(num, fault, rake);
            var s := NetSlipDirection(num, fault, rake + 180.0);
            && (r.Ok? <==> s.Ok?)
            && (r.Ok? ==> s.value == Neg(r.value))
  {
    var v := RawNetSlip(num, fault, rake);
    var w := RawNetSlip(num, fault, rake + 180.0);
    assert FoldRake(rake + 180.0) == rake;
    assert w == Neg(v);
    assert Dot(w, w) == Dot(v, v);
    var norm := num.sqrt(Dot(v, v));
    if norm != 0.0 {
      var n := Scale(1.0 / norm, v);
      var m := Scale(1.0 / norm, w);
      assert m[0] == -n[0] && m[1] == -n[1] && m[2] == -n[2];
      assert m == Neg(n);
    }
  }

  /** With exact trigonometry at the bearing and an exact square root, the
      net-slip vector is a unit vector. */
  lemma NetSlipUnit(num: Numerics, fault: seq<real>, rake: real)
    requires |fault| == 2
    requires var pb := num.rakeToPlungeBearing(fault[1] - 90.0, fault[0], FoldRake(rake));
             PythagoreanAt(num, pb.1)
    requires var v := RawNetSlip(num, fault, rake); SqrtAt(num, Dot(v, v))
    ensures NetSlipDirection(num, fault, rake).Ok?
    ensures var u := NetSlipDirection(num, fault, rake).value; Dot(u, u) == 1.0
  {
    var pb := num.rakeToPlungeBearing(fault[1] - 90.0, fault[0], FoldRake(rake));
    var t := TrendVector(num, pb.0, pb.1);
    var v := RawNetSlip(num, fault, rake);
    assert Dot(t, t) == 1.0 + t[2] * t[2];
    assert Dot(v, v) == Dot(t, t);
    NormalizeUnit(num, v);
  }

  // ---------------------------------------------------------------------
  // Views

  /** Traces of a view as drawn (y == slope x + intercept) and the cut-off
      points where the bedding traces meet the fault trace. */
  datatype View = View(fault: Line2, footwall: Line2, hangingwall: Line2,
                       footwallCut: Point2, hangingwallCut: Point2)

  /** The two cut-off points; equal slopes have no meeting point, and the
      source then indexes the missing point. */
  function CutView(rf: Line2, rfw: Line2, rhw: Line2): (r: Result<View>)
    ensures r.Err? <==> rf.slope == rfw.slope || rf.slope == rhw.slope
    ensures r.Err? ==> r.error == Parallel
    ensures r.Ok? ==>
      && r.value.fault == rf && r.value.footwall == rfw && r.value.hangingwall == rhw
      && CutsOnTraces(r.value)
  {
    var fw := CalIntersection(rf.slope, rf.intercept, rfw.slope, rfw.intercept);
    var hw := CalIntersection(rf.slope, rf.intercept, rhw.slope, rhw.intercept);
    if fw.None? || hw.None? then Err(Parallel)
    else Ok(View(rf, rfw, rhw, fw.value, hw.value))
  }

  /** The section frame: j vertical, k the strike vector `ns`, i == j x k. */
  function SectionI(ns: Vector): (i: Vector)
    requires Is3(ns)
    ensures Is3(i)
  {
    Cross([0.0, 0.0, 1.0], ns)
  }

  /** Projection of an intersection line into the section frame; it fails
      for a line of the wrong dimension or one running along the vertical
      axis of the frame, and otherwise the projected anchor lies on the
      projector's line `y == -m x + a`. */
  function SectionTrace(l: Line3, ns: Vector): (r: Result<Line2>)
    requires Is3(ns)
    ensures r.Err? <==> !(Is3(l.point) && Is3(l.direction)) || Dot([0.0, 0.0, 1.0], Cross(ns, l.direction)) == 0.0
    ensures r.Ok? ==> Is3(l.point) && Is3(l.direction)
                      && l.point[2] == -r.value.slope * Dot(SectionI(ns), l.point) + r.value.intercept
  {
    LineEquation3Dto2D(l.point, l.direction, SectionI(ns), [0.0, 0.0, 1.0], ns)
  }

  /** Projection of an intersection line into map view; the source draws it
      with the projector's slope negated. */
  function MapTrace(l: Line3): (r: Result<Line2>)
    ensures r.Err? <==> !(Is3(l.point) && Is3(l.direction)) || l.direction[0] == 0.0
    ensures r.Ok? ==> Is3(l.point) && Is3(l.direction)
                      && l.point[1] == r.value.slope * l.point[0] + r.value.intercept
  {
    var r := LineEquation3Dto2D(l.point, l.direction, [1.0, 0.0, 0.0], [0.0, 1.0, 0.0], [0.0, 0.0, 1.0]);
    if r.Err? then r else Ok(Line2(-r.value.slope, r.value.intercept))
  }

  /** The section frame is right-handed when `ns` is a horizontal unit
      vector, so by ProjectedLineNegatesSlope the section traces, drawn with
      the projector's slope as it is, are mirror images of the projected
      lines; the map frame is right-handed and its traces are drawn with the
      slope negated, i.e. as projected. */
  lemma FramesRightHanded(ns: Vector)
    requires HorizontalUnit(ns)
    ensures RightHanded(SectionI(ns), [0.0, 0.0, 1.0], ns)
    ensures RightHanded([1.0, 0.0, 0.0], [0.0, 1.0, 0.0], [0.0, 0.0, 1.0])
  {
    var i := SectionI(ns);
    var c := Cross(ns, i);
    assert c[0] == 0.0 && c[1] == 0.0 && c[2] == 1.0;
    assert c == [0.0, 0.0, 1.0];
  }

  /** Every point of a line drawn in map view lies on its drawn trace: the
      map view shows the line as it projects. */
  lemma MapTraceAsProjected(l: Line3, t: real)
    requires MapTrace(l).Ok?
    ensures var m := MapTrace(l).value;
            var P := Add(l.point, Scale(t, l.direction));
            P[1] == m.slope * P[0] + m.intercept
  {
    FramesRightHanded([1.0, 0.0, 0.0]);
    ProjectedLineNegatesSlope(l.point, l.direction, [1.0, 0.0, 0.0], [0.0, 1.0, 0.0], [0.0, 0.0, 1.0], t);
  }

  /** Every point of a line drawn in section view lies on the mirror image
      of its drawn trace: the trace is `z == m x + a` for the horizontal
      coordinate `x` taken along `-i`. */
  lemma SectionTraceMirrored(l: Line3, ns: Vector, t: real)
    requires HorizontalUnit(ns)
    requires Is3(l.point) && Is3(l.direction) && Cross(ns, l.direction)[2] != 0.0
    ensures SectionTrace(l, ns).Ok?
    ensures var m := SectionTrace(l, ns).value;
            var P := Add(l.point, Scale(t, l.direction));
            P[2] == m.slope * -Dot(SectionI(ns), P) + m.intercept
  {
    FramesRightHanded(ns);
    ProjectedLineNegatesSlope(l.point, l.direction, SectionI(ns), [0.0, 0.0, 1.0], ns, t);
  }

  /** Section view (lines 75-90): the fault and both bedding planes cut by
      the vertical section plane. */
  function SectionView(pf: seq<real>, pfw: seq<real>, phw: seq<real>, ps: seq<real>, ns: Vector): (r: Result<View>)
    requires Is3(ns)
    ensures var IF, IFW, IHW := PlaneIntersectionSection(pf, ps), PlaneIntersectionSection(pfw, ps), PlaneIntersectionSection(phw, ps);
      r.Ok? ==>
        && IF.Ok? && IFW.Ok? && IHW.Ok?
        && SectionTrace(IF.value, ns) == Ok(r.value.fault)
        && SectionTrace(IFW.value, ns) == Ok(r.value.footwall)
        && SectionTrace(IHW.value, ns) == Ok(r.value.hangingwall)
        && CutsOnTraces(r.value)
    ensures var IF, IFW, IHW := PlaneIntersectionSection(pf, ps), PlaneIntersectionSection(pfw, ps), PlaneIntersectionSection(phw, ps);
      (&& IF.Ok? && IFW.Ok? && IHW.Ok?
       && var rf, rfw, rhw := SectionTrace(IF.value, ns), SectionTrace(IFW.value, ns), SectionTrace(IHW.value, ns);
          && rf.Ok? && rfw.Ok? && rhw.Ok?
          && rf.value.slope != rfw.value.slope && rf.value.slope != rhw.value.slope)
      ==> r.Ok?
  {
    var IF, IFW, IHW := PlaneIntersectionSection(pf, ps), PlaneIntersectionSection(pfw, ps), PlaneIntersectionSection(phw, ps);
    if IF.Err? then Err(IF.error)
    else if IFW.Err? then Err(IFW.error)
    else if IHW.Err? then Err(IHW.error)
    else
      var rf, rfw, rhw := SectionTrace(IF.value, ns), SectionTrace(IFW.value, ns), SectionTrace(IHW.value, ns);
      if rf.Err? then Err(rf.error)
      else if rfw.Err? then Err(rfw.error)
      else if rhw.Err? then Err(rhw.error)
      else CutView(rf.value, rfw.value, rhw.value)
  }

  /** Map view (lines 101-120): the same planes cut by the horizontal plane. */
  function MapView(pf: seq<real>, pfw: seq<real>, phw: seq<real>, ph: seq<real>): (r: Result<View>)
    ensures var HIF, HIFW, HIHW := PlaneIntersectionMap(pf, ph), PlaneIntersectionMap(pfw, ph), PlaneIntersectionMap(phw, ph);
      r.Ok? ==>
        && HIF.Ok? && HIFW.Ok? && HIHW.Ok?
        && MapTrace(HIF.value) == Ok(r.value.fault)
        && MapTrace(HIFW.value) == Ok(r.value.footwall)
        && MapTrace(HIHW.value) == Ok(r.value.hangingwall)
        && CutsOnTraces(r.value)
    ensures var HIF, HIFW, HIHW := PlaneIntersectionMap(pf, ph), PlaneIntersectionMap(pfw, ph), PlaneIntersectionMap(phw, ph);
      (&& HIF.Ok? && HIFW.Ok? && HIHW.Ok?
       && var rf, rfw, rhw := MapTrace(HIF.value), MapTrace(HIFW.value), MapTrace(HIHW.value);
          && rf.Ok? && rfw.Ok? && rhw.Ok?
          && rf.value.slope != rfw.value.slope && rf.value.slope != rhw.value.slope)
      ==> r.Ok?
  {
    var HIF, HIFW, HIHW := PlaneIntersectionMap(pf, ph), PlaneIntersectionMap(pfw, ph), PlaneIntersectionMap(phw, ph);
    if HIF.Err? then Err(HIF.error)
    else if HIFW.Err? then Err(HIFW.error)
    else if HIHW.Err? then Err(HIHW.error)
    else
      var rf, rfw, rhw := MapTrace(HIF.value), MapTrace(HIFW.value), MapTrace(HIHW.value);
      if rf.Err? then Err(rf.error)
      else if rfw.Err? then Err(rfw.error)
      else if rhw.Err? then Err(rhw.error)
      else CutView(rf.value, rfw.value, rhw.value)
  }

  /** Reversing a line's anchor reverses its drawn intercept; an anchor at
      the origin draws through the origin. */
  lemma TracesOdd(l: Line3, ns: Vector)
    requires Is3(l.point) && Is3(l.direction) && Is3(ns)
    ensures var r := SectionTrace(l, ns);
            var s := SectionTrace(Line3(l.direction, Neg(l.point)), ns);
            && (r.Ok? <==> s.Ok?) && (r.Err? ==> s == r)
            && (r.Ok? ==> s.value == Line2(r.value.slope, -r.value.intercept))
            && (r.Ok? && l.point == Origin ==> r.value.intercept == 0.0)
    ensures var r := MapTrace(l);
            var s := MapTrace(Line3(l.direction, Neg(l.point)));
            && (r.Ok? <==> s.Ok?) && (r.Err? ==> s == r)
            && (r.Ok? ==> s.value == Line2(r.value.slope, -r.value.intercept))
            && (r.Ok? && l.point == Origin ==> r.value.intercept == 0.0)
  {
    LineEquationOdd(l.point, l.direction, SectionI(ns), [0.0, 0.0, 1.0], ns);
    LineEquationOdd(l.point, l.direction, [1.0, 0.0, 0.0], [0.0, 1.0, 0.0], [0.0, 0.0, 1.0]);
  }

  const Up: Vector := [0.0, 0.0, 1.0]

  /** Both views from the fault normal, the bedding normal, the section
      plane's normal and the hangingwall reference point (lines 61-120).
      Every plane but the hangingwall bedding passes through the origin. */
  function Views(nf: Vector, nb: Vector, ns: Vector, hwPoint: Vector): (r: Result<(View, View)>)
    requires Is3(nf) && Is3(nb) && Is3(ns) && Is3(hwPoint)
    ensures r.Ok? ==> CutsOnTraces(r.value.0) && CutsOnTraces(r.value.1)
    ensures r.Ok? ==> nf[0] != 0.0
  {
    var pf := PlaneEquation(nf, Origin).value;
    var pfw := PlaneEquation(nb, Origin).value;
    var phw := PlaneEquation(nb, hwPoint).value;
    var ps := PlaneEquation(ns, Origin).value;
    var ph := PlaneEquation(Up, Origin).value;
    match SectionView(pf, pfw, phw, ps, ns)
    case Err(e) => Err(e)
    case Ok(section) =>
      match MapView(pf, pfw, phw, ph)
      case Err(e) => Err(e)
      case Ok(mapView) => Ok((section, mapView))
  }

  /** The planes through the origin have a zero constant term, so their
      lines meet at the origin in both views: the footwall cut-off points are
      the origin. Reversing the hangingwall reference point reverses both
      hangingwall cut-off points and changes nothing else. */
  lemma {:induction false} ViewsOdd(nf: Vector, nb: Vector, ns: Vector, P: Vector)
    requires Is3(nf) && Is3(nb) && Is3(ns) && Is3(P)
    ensures var r := Views(nf, nb, ns, P);
            var s := Views(nf, nb, ns, Neg(P));
            && (r.Ok? <==> s.Ok?)
            && (r.Ok? ==>
                  && r.value.0.footwallCut == Point2(0.0, 0.0)
                  && r.value.1.footwallCut == Point2(0.0, 0.0)
                  && s.value.0.hangingwallCut == Flip(r.value.0.hangingwallCut)
                  && s.value.1.hangingwallCut == Flip(r.value.1.hangingwallCut))
  {
    var pf := PlaneEquation(nf, Origin).value;
    var pfw := PlaneEquation(nb, Origin).value;
    var phw := PlaneEquation(nb, P).value;
    var phw' := PlaneEquation(nb, Neg(P)).value;
    var ps := PlaneEquation(ns, Origin).value;
    var ph := PlaneEquation(Up, Origin).value;
    PlaneEquationNeg(nb, P);
    assert phw' == [phw[0], phw[1], phw[2], -phw[3]];
    assert pf[3] == 0.0 && pfw[3] == 0.0 && ps[3] == 0.0 && ph[3] == 0.0;
    SectionViewOdd(pf, pfw, phw, ps, ns);
    MapViewOdd(pf, pfw, phw, ph);
  }

  function Flip(p: Point2): Point2
  {
    Point2(-p.x, -p.y)
  }

  lemma {:induction false} SectionViewOdd(pf: seq<real>, pfw: seq<real>, phw: seq<real>, ps: seq<real>, ns: Vector)
    requires Is3(ns) && |pf| == 4 && |pfw| == 4 && |phw| == 4 && |ps| == 4
    requires pf[3] == 0.0 && pfw[3] == 0.0 && ps[3] == 0.0
    ensures var r := SectionView(pf, pfw, phw, ps, ns);
            var s := SectionView(pf, pfw, [phw[0], phw[1], phw[2], -phw[3]], ps, ns);
            && (r.Ok? <==> s.Ok?)
            && (r.Ok? ==> r.value.footwallCut == Point2(0.0, 0.0)
                          && s.value.hangingwallCut == Flip(r.value.hangingwallCut))
  {
    var phw' := [phw[0], phw[1], phw[2], -phw[3]];
    var a, b, c := PlaneIntersectionSection(pf, ps), PlaneIntersectionSection(pfw, ps), PlaneIntersectionSection(phw, ps);
    var c' := PlaneIntersectionSection(phw', ps);
    assert (c.Ok? <==> c'.Ok?) && (c.Err? ==> c' == c) by { SectionAnchorOdd(phw, ps); }
    if a.Ok? && b.Ok? && c.Ok? {
      var l := Line3(c.value.direction, Neg(c.value.point));
      assert c' == Ok(l) by { SectionAnchorOdd(phw, ps); }
      assert a.value.point == Origin && b.value.point == Origin by {
        OriginAnchors(pf, ps);
        OriginAnchors(pfw, ps);
      }
      var ta, tb, tc := SectionTrace(a.value, ns), SectionTrace(b.value, ns), SectionTrace(c.value, ns);
      var tc' := SectionTrace(l, ns);
      assert (tc.Ok? <==> tc'.Ok?) && (tc.Err? ==> tc' == tc) by { TracesOdd(c.value, ns); }
      if ta.Ok? && tb.Ok? && tc.Ok? {
        assert ta.value.intercept == 0.0 by { TracesOdd(a.value, ns); }
        assert tb.value.intercept == 0.0 by { TracesOdd(b.value, ns); }
        assert tc' == Ok(Line2(tc.value.slope, -tc.value.intercept)) by { TracesOdd(c.value, ns); }
        CutViewOdd(ta.value, tb.value, tc.value);
      }
    }
  }

  lemma {:induction false} MapViewOdd(pf: seq<real>, pfw: seq<real>, phw: seq<real>, ph: seq<real>)
    requires |pf| == 4 && |pfw| == 4 && |phw| == 4 && |ph| == 4
    requires pf[3] == 0.0 && pfw[3] == 0.0 && ph[3] == 0.0
    ensures var r := MapView(pf, pfw, phw, ph);
            var s := MapView(pf, pfw, [phw[0], phw[1], phw[2], -phw[3]], ph);
            && (r.Ok? <==> s.Ok?)
            && (r.Ok? ==> r.value.footwallCut == Point2(0.0, 0.0)
                          && s.value.hangingwallCut == Flip(r.value.hangingwallCut))
  {
    var phw' := [phw[0], phw[1], phw[2], -phw[3]];
    var a, b, c := PlaneIntersectionMap(pf, ph), PlaneIntersectionMap(pfw, ph), PlaneIntersectionMap(phw, ph);
    var c' := PlaneIntersectionMap(phw', ph);
    assert (c.Ok? <==> c'.Ok?) && (c.Err? ==> c' == c) by { MapAnchorOdd(phw, ph); }
    if a.Ok? && b.Ok? && c.Ok? {
      var l := Line3(c.value.direction, Neg(c.value.point));
      assert c' == Ok(l) by { MapAnchorOdd(phw, ph); }
      assert a.value.point == Origin && b.value.point == Origin by {
        OriginAnchors(pf, ph);
        OriginAnchors(pfw, ph);
      }
      var ta, tb, tc := MapTrace(a.value), MapTrace(b.value), MapTrace(c.value);
      var tc' := MapTrace(l);
      assert (tc.Ok? <==> tc'.Ok?) && (tc.Err? ==> tc' == tc) by { TracesOdd(c.value, Up); }
      if ta.Ok? && tb.Ok? && tc.Ok? {
        assert ta.value.intercept == 0.0 by { TracesOdd(a.value, Up); }
        assert tb.value.intercept == 0.0 by { TracesOdd(b.value, Up); }
        assert tc' == Ok(Line2(tc.value.slope, -tc.value.intercept)) by { TracesOdd(c.value, Up); }
        CutViewOdd(ta.value, tb.value, tc.value);
      }
    }
  }

  lemma CutViewOdd(rf: Line2, rfw: Line2, rhw: Line2)
    requires rf.intercept == 0.0 && rfw.intercept == 0.0
    ensures var r := CutView(rf, rfw, rhw);
            var s := CutView(rf, rfw, Line2(rhw.slope, -rhw.intercept));
            && (r.Ok? <==> s.Ok?)
            && (r.Ok? ==> r.value.footwallCut == Point2(0.0, 0.0)
                          && s.value.hangingwallCut == Flip(r.value.hangingwallCut))
  {
    if rf.slope != rfw.slope && rf.slope != rhw.slope {
      CalIntersectionOdd(rf.slope, rfw.slope, rhw.intercept);
      CalIntersectionOdd(rf.slope, rhw.slope, rhw.intercept);
    }
  }

  // ---------------------------------------------------------------------
  // Where the cut-off points are

  /** The plane with the constant term negated: the plane an intersection
      anchor actually lies on (see MapAnchorOnPlanes). */
  function Reflected(E: seq<real>): (r: seq<real>)
    requires |E| == 4
    ensures |r| == 4 && r[..3] == E[..3] && r[3] == -E[3]
  {
    [E[0], E[1], E[2], -E[3]]
  }

  /** `plane_equation([0, 0, 1], O)`, the map plane z == 0. */
  const Horizontal: seq<real> := [0.0, 0.0, 1.0, 0.0]

  /** The 3D point a section-view point (x, y) stands for: x is measured
      along `-i`, y along the vertical. */
  function SectionPoint(ns: Vector, p: Point2): (Q: Vector)
    requires Is3(ns)
    ensures Is3(Q)
  {
    Add(Scale(-p.x, SectionI(ns)), Scale(p.y, Up))
  }

  /** Coordinates in the basis (a, b), (-b, a) of a horizontal unit
      vector (a, b) give the point back. */
  lemma PlaneRotation(a: real, b: real, x: real, y: real, u: real, v: real)
    requires a * a + b * b == 1.0
    requires u == a * x + b * y && v == -b * x + a * y
    ensures x == a * u - b * v && y == b * u + a * v
  {
    assert a * u - b * v == (a * a + b * b) * x;
    assert b * u + a * v == (a * a + b * b) * y;
  }

  /** A point (x, y) of the drawn map trace of plane E is the point
      (x, y, 0) of the 3D line where E meets the map plane. */
  lemma {:induction false} MapTracePoint(E: seq<real>, m: Line2, p: Point2)
    requires |E| == 4 && PlaneIntersectionMap(E, Horizontal).Ok?
    requires MapTrace(PlaneIntersectionMap(E, Horizontal).value) == Ok(m)
    requires OnLine(m, p)
    ensures OnPlane(Reflected(E), [p.x, p.y, 0.0]) && OnPlane(Horizontal, [p.x, p.y, 0.0])
  {
    var l := PlaneIntersectionMap(E, Horizontal).value;
    var A, d := l.point, l.direction;
    var t := (p.x - A[0]) / d[0];
    MapTraceAsProjected(l, t);
    var P := Add(A, Scale(t, d));
    assert P[0] == p.x;
    assert d[2] == 0.0 && A[2] == 0.0;
    assert P[1] == p.y && P[2] == 0.0 by {
      assert P[1] == m.slope * P[0] + m.intercept;
    }
    assert P == [p.x, p.y, 0.0];
    DotLinear(E[..3], A, t, d);
    assert Dot(E[..3], P) == E[3];
  }

  /** The section point of `p`, written out by coordinates. */
  lemma SectionPointComponents(ns: Vector, p: Point2)
    requires Is3(ns)
    ensures SectionPoint(ns, p) == [p.x * ns[1], -p.x * ns[0], p.y]
  {
    var Q := SectionPoint(ns, p);
    assert Q[0] == -p.x * -ns[1] + p.y * 0.0;
    assert Q[1] == -p.x * ns[0] + p.y * 0.0;
    assert Q[2] == -p.x * 0.0 + p.y * 1.0;
  }

  /** A point of the section plane is the section point of its mirrored
      horizontal coordinate and its height. */
  lemma SectionFramePoint(ns: Vector, P: Vector, p: Point2)
    requires HorizontalUnit(ns)
    requires Is3(P) && Dot(ns, P) == 0.0
    requires Dot(SectionI(ns), P) == -p.x && P[2] == p.y
    ensures P == SectionPoint(ns, p)
  {
    var i := SectionI(ns);
    assert i == [-ns[1], ns[0], 0.0];
    SectionPointComponents(ns, p);
    assert Dot(ns, P) == ns[0] * P[0] + ns[1] * P[1];
    assert Dot(i, P) == -ns[1] * P[0] + ns[0] * P[1];
    PlaneRotation(ns[0], ns[1], P[0], P[1], 0.0, -p.x);
    assert P[0] == p.x * ns[1] && P[1] == -p.x * ns[0];
    assert P == [p.x * ns[1], -p.x * ns[0], p.y];
  }

  /** A point (x, y) of the drawn section trace of plane E is the point
      `SectionPoint(ns, (x, y))` of the 3D line where E meets the section
      plane, for a horizontal unit `ns`. */
  lemma {:induction false} SectionTracePoint(E: seq<real>, ns: Vector, m: Line2, p: Point2)
    requires HorizontalUnit(ns)
    requires |E| == 4
    requires var ps := [ns[0], ns[1], ns[2], 0.0];
             && PlaneIntersectionSection(E, ps).Ok?
             && SectionTrace(PlaneIntersectionSection(E, ps).value, ns) == Ok(m)
    requires OnLine(m, p)
    ensures var Q := SectionPoint(ns, p);
            OnPlane(Reflected(E), Q) && OnPlane([ns[0], ns[1], ns[2], 0.0], Q)
  {
    var ps := [ns[0], ns[1], ns[2], 0.0];
    var l := PlaneIntersectionSection(E, ps).value;
    var A, d := l.point, l.direction;
    var i := SectionI(ns);
    assert i == [-ns[1], ns[0], 0.0];
    assert Dot(i, d) != 0.0 by {
      TripleProductRotate(Up, ns, d);
    }
    var t := (-p.x - Dot(i, A)) / Dot(i, d);
    var P := Add(A, Scale(t, d));
    assert Dot(i, P) == -p.x by {
      DotLinear(i, A, t, d);
    }
    assert P[2] == p.y by {
      SectionTraceMirrored(l, ns, t);
      assert P[2] == m.slope * -Dot(i, P) + m.intercept;
    }
    SectionLinePoints(E, ns, t);
    SectionFramePoint(ns, P, p);
  }

  /** Every point of the line where a plane meets the section plane lies on
      both: on the section plane and on the plane with its constant term
      negated. */
  lemma SectionLinePoints(E: seq<real>, ns: Vector, t: real)
    requires Is3(ns) && |E| == 4
    requires PlaneIntersectionSection(E, [ns[0], ns[1], ns[2], 0.0]).Ok?
    ensures var l := PlaneIntersectionSection(E, [ns[0], ns[1], ns[2], 0.0]).value;
            var P := Add(l.point, Scale(t, l.direction));
            Is3(P) && Dot(E[..3], P) == E[3] && Dot(ns, P) == 0.0
  {
    var ps := [ns[0], ns[1], ns[2], 0.0];
    var l := PlaneIntersectionSection(E, ps).value;
    var A, d := l.point, l.direction;
    DotLinear(ps[..3], A, t, d);
    assert ps[..3] == ns;
    DotLinear(E[..3], A, t, d);
  }

  /** In a section view, each cut-off point, carried back to 3D, lies on
      the section plane, on the fault plane and on its bedding plane (each
      with its constant term negated, as the anchor solve leaves it). */
  lemma {:induction false} SectionCutsOnPlanes(pf: seq<real>, pfw: seq<real>, phw: seq<real>, ns: Vector)
    requires HorizontalUnit(ns)
    requires |pf| == 4 && |pfw| == 4 && |phw| == 4
    requires SectionView(pf, pfw, phw, [ns[0], ns[1], ns[2], 0.0], ns).Ok?
    ensures var ps := [ns[0], ns[1], ns[2], 0.0];
            var v := SectionView(pf, pfw, phw, ps, ns).value;
            var F, H := SectionPoint(ns, v.footwallCut), SectionPoint(ns, v.hangingwallCut);
            && OnPlane(Reflected(pf), F) && OnPlane(Reflected(pfw), F) && OnPlane(ps, F)
            && OnPlane(Reflected(pf), H) && OnPlane(Reflected(phw), H) && OnPlane(ps, H)
  {
    var ps := [ns[0], ns[1], ns[2], 0.0];
    var v := SectionView(pf, pfw, phw, ps, ns).value;
    SectionTracePoint(pf, ns, v.fault, v.footwallCut);
    SectionTracePoint(pf, ns, v.fault, v.hangingwallCut);
    SectionTracePoint(pfw, ns, v.footwall, v.footwallCut);
    SectionTracePoint(phw, ns, v.hangingwall, v.hangingwallCut);
  }

  /** In map view, each cut-off point at height zero lies on the horizontal
      plane, on the fault plane and on its bedding plane (each with its
      constant term negated). */
  lemma {:induction false} MapCutsOnPlanes(pf: seq<real>, pfw: seq<real>, phw: seq<real>)
    requires |pf| == 4 && |pfw| == 4 && |phw| == 4
    requires MapView(pf, pfw, phw, Horizontal).Ok?
    ensures var v := MapView(pf, pfw, phw, Horizontal).value;
            var F, H := [v.footwallCut.x, v.footwallCut.y, 0.0], [v.hangingwallCut.x, v.hangingwallCut.y, 0.0];
            && OnPlane(Reflected(pf), F) && OnPlane(Reflected(pfw), F) && OnPlane(Horizontal, F)
            && OnPlane(Reflected(pf), H) && OnPlane(Reflected(phw), H) && OnPlane(Horizontal, H)
  {
    var v := MapView(pf, pfw, phw, Horizontal).value;
    MapTracePoint(pf, v.fault, v.footwallCut);
    MapTracePoint(pfw, v.footwall, v.footwallCut);
    MapTracePoint(pf, v.fault, v.hangingwallCut);
    MapTracePoint(phw, v.hangingwall, v.hangingwallCut);
  }

  /** The cut-off points of both views, carried back to 3D: all of them lie
      on the fault plane, the footwall ones on the bedding plane through the
      origin, and the hangingwall ones on the bedding plane through the
      reversed hangingwall reference point; the section ones lie on the
      section plane and the map ones on the horizontal plane. */
  lemma {:induction false} ViewsCutsOnPlanes(nf: Vector, nb: Vector, ns: Vector, P: Vector)
    requires Is3(nf) && Is3(nb) && Is3(P)
    requires HorizontalUnit(ns)
    requires Views(nf, nb, ns, P).Ok?
    ensures var v := Views(nf, nb, ns, P).value;
            var F, B, BH := PlaneEquation(nf, Origin).value, PlaneEquation(nb, Origin).value, PlaneEquation(nb, Neg(P)).value;
            var S := PlaneEquation(ns, Origin).value;
            var sf, sh := SectionPoint(ns, v.0.footwallCut), SectionPoint(ns, v.0.hangingwallCut);
            var mf, mh := [v.1.footwallCut.x, v.1.footwallCut.y, 0.0], [v.1.hangingwallCut.x, v.1.hangingwallCut.y, 0.0];
            && OnPlane(F, sf) && OnPlane(B, sf) && OnPlane(S, sf)
            && OnPlane(F, sh) && OnPlane(BH, sh) && OnPlane(S, sh)
            && OnPlane(F, mf) && OnPlane(B, mf) && OnPlane(Horizontal, mf)
            && OnPlane(F, mh) && OnPlane(BH, mh) && OnPlane(Horizontal, mh)
  {
    var pf := PlaneEquation(nf, Origin).value;
    var pfw := PlaneEquation(nb, Origin).value;
    var phw := PlaneEquation(nb, P).value;
    var ps := PlaneEquation(ns, Origin).value;
    var ph := PlaneEquation(Up, Origin).value;
    assert ps == [ns[0], ns[1], ns[2], 0.0];
    assert ph == Horizontal;
    assert Reflected(pf) == pf && Reflected(pfw) == pfw;
    assert Reflected(phw) == PlaneEquation(nb, Neg(P)).value by {
      PlaneEquationNeg(nb, P);
    }
    SectionCutsOnPlanes(pf, pfw, phw, ns);
    MapCutsOnPlanes(pf, pfw, phw);
  }

  // ---------------------------------------------------------------------
  // Samples

  /** Number of samples of `np.arange(start, stop, 1)` for `x == stop - start`:
      the least count that reaches `stop`, zero for an empty range. */
  function SampleCount(x: real): (n: nat)
    ensures x <= 0.0 ==> n == 0
    ensures x > 0.0 ==> (n as real) - 1.0 < x <= n as real
  {
    if x <= 0.0 then 0
    else
      var f := x.Floor;
      if f as real == x then f else f + 1
  }

  /** `np.arange(start, stop, 1)`: start, start + 1, ... while below stop. */
  function Arange(start: real, stop: real): (r: seq<real>)
    ensures |r| == SampleCount(stop - start)
    ensures forall n :: 0 <= n < |r| ==> r[n] == start + n as real && r[n] < stop
    ensures start + |r| as real >= stop
  {
    seq(SampleCount(stop - start), n => start + n as real)
  }

  /** The rows (x, slope * x + intercept) of a drawn trace. */
  function Polyline(l: Line2, xs: seq<real>): (r: seq<Point2>)
    ensures |r| == |xs|
    ensures forall n :: 0 <= n < |r| ==> r[n].x == xs[n] && r[n].y == l.slope * r[n].x + l.intercept
  {
    seq(|xs|, n requires 0 <= n < |xs| => Point2(xs[n], l.slope * xs[n] + l.intercept))
  }

  // ---------------------------------------------------------------------
  // The analysis

  /** What `section_map` computes and draws: both views, the section
      polylines, the map polylines, and the fault normal's map projection
      (x, y) that picks the trimming rule. */
  datatype Separation = Separation(
    section: View, mapView: View,
    sectionFault: seq<Point2>, sectionFootwall: seq<Point2>, sectionHangingwall: seq<Point2>,
    mapFault: seq<Point2>, mapFootwall: seq<Point2>, mapHangingwall: seq<Point2>,
    normalMap: Point2)

  /** The hangingwall reference point: the origin slipped by
      `-net_slip_value` along the unit net-slip vector (line 67). */
  function HangingwallPoint(num: Numerics, fault: seq<real>, rake: real, value: real): (r: Result<Vector>)
    requires |fault| == 2
    ensures r.Ok? <==> NetSlipDirection(num, fault, rake).Ok?
    ensures r.Ok? ==> r.value == Scale(-value, NetSlipDirection(num, fault, rake).value)
  {
    match NetSlipDirection(num, fault, rake)
    case Err(e) => Err(e)
    case Ok(u) =>
      ApplyNetSlipFromOrigin(u, -value);
      Ok(ApplyNetSlip(Origin, u, -value).value)
  }

  /** Both views from the fault and bedding pairs (lines 35-120). */
  function CutOffs(num: Numerics, fault: seq<real>, bedding: seq<real>, rake: real, value: real): (r: Result<(View, View)>)
    ensures |fault| != 2 ==> r == Err(BadPlane)
    ensures |bedding| != 2 ==> r.Err?
    ensures r.Ok? ==> NormalVector(num, fault).Ok? && NormalVector(num, bedding).Ok?
                      && NetSlipDirection(num, fault, rake).Ok?
                      && CutsOnTraces(r.value.0) && CutsOnTraces(r.value.1)
  {
    match (NormalVector(num, fault), NormalVector(num, bedding))
    case (Err(e), _) => Err(e)
    case (_, Err(e)) => Err(e)
    case (Ok(nf), Ok(nb)) =>
      match HangingwallPoint(num, fault, rake, value)
      case Err(e) => Err(e)
      case Ok(hwPoint) => Views(nf, nb, StrikeVector(num, fault[1]), hwPoint)
  }

  /** Lines 32-151 on the (already nudged) fault and bedding pairs: the
      views of CutOffs, the sampled polylines (not trimmed yet) and the
      fault normal's map projection. */
  function Prepare(num: Numerics, fault: seq<real>, bedding: seq<real>, rake: real, value: real): (r: Result<Separation>)
    ensures var c := CutOffs(num, fault, bedding, rake, value);
            && (r.Ok? <==> c.Ok?)
            && (r.Ok? ==> r.value.section == c.value.0 && r.value.mapView == c.value.1)
    ensures r.Ok? ==>
      var s := r.value;
      && NormalVector(num, fault).Ok?
      && s.normalMap == Point2(NormalVector(num, fault).value[0], NormalVector(num, fault).value[1])
      && s.sectionFault == Polyline(s.section.fault, Arange(-20.0, 20.0))
      && s.sectionFootwall == Polyline(s.section.footwall, Arange(-20.0, s.section.footwallCut.x + 1.0))
      && s.sectionHangingwall == Polyline(s.section.hangingwall, Arange(s.section.hangingwallCut.x, 20.0))
      && s.mapFault == Polyline(s.mapView.fault, Arange(-50.0, 50.0))
      && s.mapFootwall == Polyline(s.mapView.footwall, Arange(-50.0, 50.0))
      && s.mapHangingwall == Polyline(s.mapView.hangingwall, Arange(-50.0, 50.0))
  {
    match CutOffs(num, fault, bedding, rake, value)
    case Err(e) => Err(e)
    case Ok(views) => Ok(Sampled(views.0, views.1, NormalVector(num, fault).value))
  }

  /** The polylines of lines 93-99 and 127-133 and the normal's map
      projection of lines 122-124. */
  function Sampled(section: View, mapView: View, nf: Vector): (s: Separation)
    requires Is3(nf)
    ensures s.section == section && s.mapView == mapView
    ensures s.normalMap == Point2(nf[0], nf[1])
    ensures && s.sectionFault == Polyline(section.fault, Arange(-20.0, 20.0))
            && s.sectionFootwall == Polyline(section.footwall, Arange(-20.0, section.footwallCut.x + 1.0))
            && s.sectionHangingwall == Polyline(section.hangingwall, Arange(section.hangingwallCut.x, 20.0))
            && s.mapFault == Polyline(mapView.fault, Arange(-50.0, 50.0))
            && s.mapFootwall == Polyline(mapView.footwall, Arange(-50.0, 50.0))
            && s.mapHangingwall == Polyline(mapView.hangingwall, Arange(-50.0, 50.0))
  {
    var xMap := Arange(-50.0, 50.0);
    Separation(
      section, mapView,
      Polyline(section.fault, Arange(-20.0, 20.0)),
      Polyline(section.footwall, Arange(-20.0, section.footwallCut.x + 1.0)),
      Polyline(section.hangingwall, Arange(section.hangingwallCut.x, 20.0)),
      Polyline(mapView.fault, xMap), Polyline(mapView.footwall, xMap), Polyline(mapView.hangingwall, xMap),
      Point2(Dot([1.0, 0.0, 0.0], nf), Dot([0.0, 1.0, 0.0], nf)))
  }

  /** The trimming of lines 145-178 applied to prepared polylines: only the
      two map bedding polylines change, and each keeps a subsequence of its
      rows. */
  function TrimMap(s: Separation, faultDipDirection: real, beddingDipDirection: real): (r: Separation)
    ensures r.(mapFootwall := s.mapFootwall, mapHangingwall := s.mapHangingwall) == s
    ensures IsSubsequence(r.mapFootwall, s.mapFootwall) && IsSubsequence(r.mapHangingwall, s.mapHangingwall)
    ensures SideOf(s.normalMap.x) == Zero ==> r == s
  {
    var rule := Table(SideOf(s.normalMap.x),
                      RelationOf(FoldDipDirection(beddingDipDirection), FoldDipDirection(faultDipDirection)),
                      s.mapView.hangingwallCut);
    TrimIsSubsequence(rule.footwall, s.mapFootwall);
    TrimIsSubsequence(rule.hangingwall, s.mapHangingwall);
    TrimKeepAll(s.mapFootwall);
    TrimKeepAll(s.mapHangingwall);
    s.(mapFootwall := Trim(rule.footwall, s.mapFootwall),
       mapHangingwall := Trim(rule.hangingwall, s.mapHangingwall))
  }

  /** A prepared analysis never has a fault normal with a zero map x
      component: the fault trace in map view is then the y axis and its
      anchor solve is singular. So the table's `x == 0` case, which keeps
      both polylines whole, is not reached. */
  lemma PreparedSideNonZero(num: Numerics, fault: seq<real>, bedding: seq<real>, rake: real, value: real)
    requires Prepare(num, fault, bedding, rake, value).Ok?
    ensures SideOf(Prepare(num, fault, bedding, rake, value).value.normalMap.x) != Zero
  {
    CutOffsViews(num, fault, bedding, rake, value);
  }

  function SquaredDistance(p: Point2, q: Point2): real
  {
    (p.x - q.x) * (p.x - q.x) + (p.y - q.y) * (p.y - q.y)
  }

  /** The footwall cut-off points are the origin in both views, so the dip
      and strike separations are the distances of the hangingwall cut-off
      points from the origin. */
  lemma FootwallCutsAtOrigin(num: Numerics, fault: seq<real>, bedding: seq<real>, rake: real, value: real)
    requires CutOffs(num, fault, bedding, rake, value).Ok?
    ensures var c := CutOffs(num, fault, bedding, rake, value).value;
            c.0.footwallCut == Point2(0.0, 0.0) && c.1.footwallCut == Point2(0.0, 0.0)
  {
    var nf := NormalVector(num, fault).value;
    var nb := NormalVector(num, bedding).value;
    ViewsOdd(nf, nb, StrikeVector(num, fault[1]), HangingwallPoint(num, fault, rake, value).value);
  }

  /** CutOffs fails when a normal or the net slip fails, and is otherwise
      the views of the two normals and the hangingwall reference point. */
  lemma CutOffsViews(num: Numerics, fault: seq<real>, bedding: seq<real>, rake: real, value: real)
    ensures var ok := NormalVector(num, fault).Ok? && NormalVector(num, bedding).Ok?
                      && HangingwallPoint(num, fault, rake, value).Ok?;
            && (!ok ==> CutOffs(num, fault, bedding, rake, value).Err?)
            && (ok ==> CutOffs(num, fault, bedding, rake, value)
                       == Views(NormalVector(num, fault).value, NormalVector(num, bedding).value,
                                StrikeVector(num, fault[1]), HangingwallPoint(num, fault, rake, value).value))
  {
  }

  /** With exact trigonometry at the strike, the hangingwall cut-off points
      of both views, carried back to 3D, lie on the fault plane through the
      origin and on the bedding plane through the point reached from the
      origin by `net_slip_value` along the unit net-slip vector. */
  lemma {:induction false} CutOffsCutsOnPlanes(num: Numerics, fault: seq<real>, bedding: seq<real>, rake: real, value: real)
    requires |fault| == 2 && PythagoreanAt(num, fault[1] - 90.0)
    requires CutOffs(num, fault, bedding, rake, value).Ok?
    ensures var c := CutOffs(num, fault, bedding, rake, value).value;
            var nf, nb := NormalVector(num, fault).value, NormalVector(num, bedding).value;
            var u := NetSlipDirection(num, fault, rake).value;
            var ns := StrikeVector(num, fault[1]);
            var F, B := PlaneEquation(nf, Origin).value, PlaneEquation(nb, Scale(value, u)).value;
            var sh := SectionPoint(ns, c.0.hangingwallCut);
            var mh := [c.1.hangingwallCut.x, c.1.hangingwallCut.y, 0.0];
            && OnPlane(F, sh) && OnPlane(B, sh) && OnPlane(PlaneEquation(ns, Origin).value, sh)
            && OnPlane(F, mh) && OnPlane(B, mh) && OnPlane(Horizontal, mh)
  {
    var nf, nb := NormalVector(num, fault).value, NormalVector(num, bedding).value;
    var u := NetSlipDirection(num, fault, rake).value;
    var hw := HangingwallPoint(num, fault, rake, value).value;
    var ns := StrikeVector(num, fault[1]);
    assert CutOffs(num, fault, bedding, rake, value) == Views(nf, nb, ns, hw) by {
      CutOffsViews(num, fault, bedding, rake, value);
    }
    assert Neg(hw) == Scale(value, u) by {
      NegScale(value, u);
    }
    StrikeVectorUnit(num, fault[1]);
    ViewsCutsOnPlanes(nf, nb, ns, hw);
  }

  /** Reversing the net-slip magnitude reverses both hangingwall cut-off
      points and keeps the footwall ones at the origin, so the dip and strike
      separations are unchanged. */
  lemma {:induction false} SlipMagnitudeSymmetry(num: Numerics, fault: seq<real>, bedding: seq<real>, rake: real, value: real)
    ensures var r := CutOffs(num, fault, bedding, rake, value);
            var s := CutOffs(num, fault, bedding, rake, -value);
            && (r.Ok? <==> s.Ok?)
            && (r.Ok? ==> SameSeparations(r.value, s.value))
  {
    if |fault| == 2 {
      var h := HangingwallPoint(num, fault, rake, value);
      var k := HangingwallPoint(num, fault, rake, -value);
      assert h.Ok? ==> k == Ok(Neg(h.value)) by {
        if h.Ok? {
          var P, Q := h.value, k.value;
          assert Q[0] == -P[0] && Q[1] == -P[1] && Q[2] == -P[2];
        }
      }
      ReversedCutOffs(num, fault, bedding, rake, value, rake, -value);
    }
  }

  /** A rake and the same rake plus 180 reverse the slip, the hangingwall
      cut-off points with it, and leave the separations unchanged. */
  lemma {:induction false} RakeHalfTurnSymmetry(num: Numerics, fault: seq<real>, bedding: seq<real>, rake: real, value: real)
    requires 0.0 <= rake < 180.0
    ensures var r := CutOffs(num, fault, bedding, rake, value);
            var s := CutOffs(num, fault, bedding, rake + 180.0, value);
            && (r.Ok? <==> s.Ok?)
            && (r.Ok? ==> SameSeparations(r.value, s.value))
  {
    if |fault| == 2 {
      HalfTurnHangingwall(num, fault, rake, value);
      ReversedCutOffs(num, fault, bedding, rake, value, rake + 180.0, value);
    }
  }

  lemma HalfTurnHangingwall(num: Numerics, fault: seq<real>, rake: real, value: real)
    requires |fault| == 2 && 0.0 <= rake < 180.0
    ensures var h := HangingwallPoint(num, fault, rake, value);
            var k := HangingwallPoint(num, fault, rake + 180.0, value);
            (h.Ok? <==> k.Ok?) && (h.Ok? ==> k == Ok(Neg(h.value)))
  {
    NetSlipOpposite(num, fault, rake);
    var h := HangingwallPoint(num, fault, rake, value);
    var k := HangingwallPoint(num, fault, rake + 180.0, value);
    if h.Ok? {
      var u := NetSlipDirection(num, fault, rake).value;
      var P, Q := h.value, k.value;
      assert Q == Scale(-value, Neg(u));
      assert Q[0] == -P[0] && Q[1] == -P[1] && Q[2] == -P[2];
    }
  }

  /** Two slips whose hangingwall points are opposite give the same
      separations. */
  lemma ReversedCutOffs(num: Numerics, fault: seq<real>, bedding: seq<real>, rake: real, value: real, rake': real, value': real)
    requires |fault| == 2
    requires var h := HangingwallPoint(num, fault, rake, value);
             var k := HangingwallPoint(num, fault, rake', value');
             (h.Ok? <==> k.Ok?) && (h.Ok? ==> k == Ok(Neg(h.value)))
    ensures var r := CutOffs(num, fault, bedding, rake, value);
            var s := CutOffs(num, fault, bedding, rake', value');
            && (r.Ok? <==> s.Ok?)
            && (r.Ok? ==> SameSeparations(r.value, s.value))
  {
    CutOffsViews(num, fault, bedding, rake, value);
    CutOffsViews(num, fault, bedding, rake', value');
    var h := HangingwallPoint(num, fault, rake, value);
    if NormalVector(num, fault).Ok? && NormalVector(num, bedding).Ok? && h.Ok? {
      ReversedViews(NormalVector(num, fault).value, NormalVector(num, bedding).value, StrikeVector(num, fault[1]), h.value);
    }
  }

  lemma ReversedViews(nf: Vector, nb: Vector, ns: Vector, P: Vector)
    requires Is3(nf) && Is3(nb) && Is3(ns) && Is3(P)
    ensures var r := Views(nf, nb, ns, P);
            var s := Views(nf, nb, ns, Neg(P));
            && (r.Ok? <==> s.Ok?)
            && (r.Ok? ==> SameSeparations(r.value, s.value))
  {
    ViewsOdd(nf, nb, ns, P);
    var r := Views(nf, nb, ns, P);
    var s := Views(nf, nb, ns, Neg(P));
    if r.Ok? {
      FlipSeparation(r.value.0.hangingwallCut);
      FlipSeparation(r.value.1.hangingwallCut);
    }
  }

  lemma FlipSeparation(p: Point2)
    ensures SquaredDistance(Point2(0.0, 0.0), p) == SquaredDistance(Point2(0.0, 0.0), Flip(p))
  {
  }

  /** Each cut-off point of a view lies on the fault trace and on its
      bedding trace. */
  predicate CutsOnTraces(v: View)
  {
    && OnLine(v.fault, v.footwallCut) && OnLine(v.footwall, v.footwallCut)
    && OnLine(v.fault, v.hangingwallCut) && OnLine(v.hangingwall, v.hangingwallCut)
  }

  /** The point lies on the drawn line. */
  predicate OnLine(m: Line2, p: Point2)
  {
    p.y == m.slope * p.x + m.intercept
  }

  /** Both analyses have their footwall cut-off points at the origin, the
      second's hangingwall cut-off points are the first's reversed, and the
      dip and strike separations (squared) agree. */
  predicate SameSeparations(a: (View, View), b: (View, View))
  {
    && a.0.footwallCut == b.0.footwallCut == Point2(0.0, 0.0)
    && a.1.footwallCut == b.1.footwallCut == Point2(0.0, 0.0)
    && b.0.hangingwallCut == Flip(a.0.hangingwallCut)
    && b.1.hangingwallCut == Flip(a.1.hangingwallCut)
    && SquaredDistance(a.0.footwallCut, a.0.hangingwallCut)
       == SquaredDistance(b.0.footwallCut, b.0.hangingwallCut)
    && SquaredDistance(a.1.footwallCut, a.1.hangingwallCut)
       == SquaredDistance(b.1.footwallCut, b.1.hangingwallCut)
  }

  // ---------------------------------------------------------------------
  // section_map

  /** `section_map` on mutable (dip, dip direction) lists. A dip direction
      of exactly 90 is nudged in place in both lists before anything is
      computed (a list shorter than two fails on the index); the analysis
      runs on the nudged values; the polylines are trimmed; and only on
      success is the fault's nudged value set back to 90. */
  method SectionMap(num: Numerics, fault: array<real>, bedding: array<real>, rake: real, value: real)
    returns (r: Result<Separation>)
    modifies fault, bedding
    ensures bedding.Length < 2 ==> r == Err(BadPlane) && unchanged(fault) && unchanged(bedding)
    ensures bedding.Length >= 2 && fault.Length < 2 ==>
      && r == Err(BadPlane) && unchanged(fault)
      && bedding[..] == old(bedding[..])[1 := NudgeDipDirection(old(bedding[1]))]
    ensures bedding.Length >= 2 && fault.Length >= 2 ==>
      var F := old(fault[..])[1 := NudgeDipDirection(old(fault[1]))];
      var B := old(bedding[..])[1 := NudgeDipDirection(old(bedding[1]))];
      var p := Prepare(num, F, B, rake, value);
      && (p.Err? ==> r == p && fault[..] == F)
      && (p.Ok? ==> r == Ok(TrimMap(p.value, F[1], B[1]))
                    && fault[..] == F[1 := RestoreDipDirection(F[1])])
      && (fault != bedding ==> bedding[..] == B)
  {
    if bedding.Length < 2 {
      return Err(BadPlane);
    }
    ghost var oldFault := fault[..];
    ghost var B := bedding[..][1 := NudgeDipDirection(bedding[1])];
    if bedding[1] == 90.0 {
      bedding[1] := Nudged;
    }
    assert bedding[..] == B;
    if fault.Length < 2 {
      return Err(BadPlane);
    }
    ghost var F := fault[..][1 := NudgeDipDirection(fault[1])];
    assert fault != bedding ==> fault[..] == oldFault;
    if fault[1] == 90.0 {
      fault[1] := Nudged;
    }
    assert fault[..] == F;
    assert fault != bedding ==> bedding[..] == B;
    var prepared := Prepare(num, fault[..], bedding[..], rake, value);
    if prepared.Err? {
      return prepared;
    }
    var s := prepared.value;
    var bed := FoldDipDirection(bedding[1]);
    var f := FoldDipDirection(fault[1]);
    var fw, hw := TrimBlocks(s.normalMap.x, bed, f, s.mapView.hangingwallCut, s.mapFootwall, s.mapHangingwall);
    if fault[1] == Nudged {
      fault[1] := 90.0;
    }
    assert fault[..] == F[1 := RestoreDipDirection(F[1])];
    r := Ok(s.(mapFootwall := fw, mapHangingwall := hw));
  }
}
