/** The block-trimming table of `section_map` (utils/analysis.py:153-178):
    which half of the sampled footwall and hangingwall map traces is kept,
    keyed on the sign of the fault normal's x component and on how the folded
    bedding dip direction compares with 0, 180 and the folded fault dip
    direction. Rows are (x, y) samples; dropping the rows that meet a
    condition keeps the others in their original order. */
module Trimming {
  import opened Geometry

  /** Sign of the fault normal's map-view x component. */
  datatype Side = Positive | Negative | Zero

  function SideOf(x: real): Side
  {
    if x > 0.0 then Positive else if x < 0.0 then Negative else Zero
  }

  /** The bedding dip direction tested in the source's order: equal to 0,
      equal to 180, below the fault's, above the fault's; `Level` is the
      remaining case, equal to the fault's. */
  datatype Relation = BedZero | BedHalfTurn | BedBelow | BedAbove | Level

  function RelationOf(bed: real, f: real): Relation
  {
    if bed == 0.0 then BedZero
    else if bed == 180.0 then BedHalfTurn
    else if bed < f then BedBelow
    else if bed > f then BedAbove
    else Level
  }

  datatype Axis = XAxis | YAxis

  /** `DropBelow(a, b)` is `df.drop(df[df[a] < b].index)`, `DropAbove(a, b)`
      is `df.drop(df[df[a] > b].index)`. */
  datatype Cut = KeepAll | DropBelow(axis: Axis, bound: real) | DropAbove(axis: Axis, bound: real)

  function Coord(p: Point2, a: Axis): real
  {
    match a
    case XAxis => p.x
    case YAxis => p.y
  }

  predicate Keeps(c: Cut, p: Point2)
  {
    match c
    case KeepAll => true
    case DropBelow(a, b) => !(Coord(p, a) < b)
    case DropAbove(a, b) => !(Coord(p, a) > b)
  }

  /** The cut that keeps the other half. */
  function Opposite(c: Cut): (o: Cut)
    ensures forall p :: Keeps(c, p) || Keeps(o, p)
  {
    match c
    case KeepAll => KeepAll
    case DropBelow(a, b) => DropAbove(a, b)
    case DropAbove(a, b) => DropBelow(a, b)
  }

  /** The rows a cut keeps, in order, each as often as it occurs. */
  function Trim(c: Cut, rows: seq<Point2>): (r: seq<Point2>)
    ensures |r| <= |rows|
    ensures forall p :: p in r <==> p in rows && Keeps(c, p)
    ensures forall p :: multiset(r)[p] == if Keeps(c, p) then multiset(rows)[p] else 0
  {
    if rows == [] then []
    else
      assert rows == [rows[0]] + rows[1..];
      if Keeps(c, rows[0]) then [rows[0]] + Trim(c, rows[1..])
      else Trim(c, rows[1..])
  }

  /** `s` is `t` with some rows removed, the rest in their original order. */
  predicate IsSubsequence(s: seq<Point2>, t: seq<Point2>)
    decreases |t|
  {
    if s == [] then true
    else if t == [] then false
    else if s[0] == t[0] then IsSubsequence(s[1..], t[1..])
    else IsSubsequence(s, t[1..])
  }

  lemma {:induction false} TrimIsSubsequence(c: Cut, rows: seq<Point2>)
    ensures IsSubsequence(Trim(c, rows), rows)
    decreases |rows|
  {
    if rows != [] {
      TrimIsSubsequence(c, rows[1..]);
      var r := Trim(c, rows);
      if !Keeps(c, rows[0]) && r != [] {
        assert r[0] in r;
        if r[0] == rows[0] {
          assert false;
        }
      }
    }
  }

  lemma {:induction false} TrimKeepAll(rows: seq<Point2>)
    ensures Trim(KeepAll, rows) == rows
  {
    if rows != [] {
      TrimKeepAll(rows[1..]);
      assert [rows[0]] + rows[1..] == rows;
    }
  }

  /** Which rows each block keeps. */
  datatype Rule = Rule(footwall: Cut, hangingwall: Cut)

  /** The eight-case table as a tagged function. `hwm` is the hangingwall
      cut-off point in map view. The footwall is always cut on the sign of
      y; the hangingwall against `hwm.x` when the bedding dips due north or
      south (0 or 180) and against `hwm.y` otherwise; a zero x component or a
      bedding parallel to the fault keeps everything; a negative x component
      keeps the opposite halves of a positive one. */
  function Table(side: Side, rel: Relation, hwm: Point2): (r: Rule)
    ensures (side == Zero || rel == Level) <==> r == Rule(KeepAll, KeepAll)
    ensures side != Zero && rel != Level ==>
      && r.footwall != KeepAll && r.footwall.axis == YAxis && r.footwall.bound == 0.0
      && r.hangingwall != KeepAll
      && (rel == BedZero || rel == BedHalfTurn ==>
            r.hangingwall.axis == XAxis && r.hangingwall.bound == hwm.x)
      && (rel == BedBelow || rel == BedAbove ==>
            r.hangingwall.axis == YAxis && r.hangingwall.bound == hwm.y)
  {
    match (side, rel)
    case (Zero, _) => Rule(KeepAll, KeepAll)
    case (_, Level) => Rule(KeepAll, KeepAll)
    case (Positive, BedZero) => Rule(DropBelow(YAxis, 0.0), DropBelow(XAxis, hwm.x))
    case (Positive, BedHalfTurn) => Rule(DropAbove(YAxis, 0.0), DropBelow(XAxis, hwm.x))
    case (Positive, BedBelow) => Rule(DropBelow(YAxis, 0.0), DropAbove(YAxis, hwm.y))
    case (Positive, BedAbove) => Rule(DropAbove(YAxis, 0.0), DropBelow(YAxis, hwm.y))
    case (Negative, BedZero) => Rule(DropAbove(YAxis, 0.0), DropAbove(XAxis, hwm.x))
    case (Negative, BedHalfTurn) => Rule(DropBelow(YAxis, 0.0), DropAbove(XAxis, hwm.x))
    case (Negative, BedBelow) => Rule(DropAbove(YAxis, 0.0), DropBelow(YAxis, hwm.y))
    case (Negative, BedAbove) => Rule(DropBelow(YAxis, 0.0), DropAbove(YAxis, hwm.y))
  }

  /** Reversing the sign of the fault normal's x component makes each block
      keep the other half: every row is kept under one sign or the other. */
  lemma TableMirror(rel: Relation, hwm: Point2, p: Point2)
    ensures var pos := Table(Positive, rel, hwm);
            Table(Negative, rel, hwm) == Rule(Opposite(pos.footwall), Opposite(pos.hangingwall))
    ensures Keeps(Table(Positive, rel, hwm).footwall, p) || Keeps(Table(Negative, rel, hwm).footwall, p)
    ensures Keeps(Table(Positive, rel, hwm).hangingwall, p) || Keeps(Table(Negative, rel, hwm).hangingwall, p)
  {
  }

  /** The branch chain of the source, reassigning the two polylines in
      place of its data frames; it applies the table's rule to each. */
  method TrimBlocks(x: real, bed: real, f: real, hwm: Point2, fw: seq<Point2>, hw: seq<Point2>)
    returns (fwOut: seq<Point2>, hwOut: seq<Point2>)
    ensures var rule := Table(SideOf(x), RelationOf(bed, f), hwm);
            fwOut == Trim(rule.footwall, fw) && hwOut == Trim(rule.hangingwall, hw)
    ensures IsSubsequence(fwOut, fw) && IsSubsequence(hwOut, hw)
  {
    fwOut, hwOut := fw, hw;
    if x > 0.0 {
      if bed == 0.0 {
        fwOut := Trim(DropBelow(YAxis, 0.0), fwOut);
        hwOut := Trim(DropBelow(XAxis, hwm.x), hwOut);
      } else if bed == 180.0 {
        fwOut := Trim(DropAbove(YAxis, 0.0), fwOut);
        hwOut := Trim(DropBelow(XAxis, hwm.x), hwOut);
      } else if bed < f {
        fwOut := Trim(DropBelow(YAxis, 0.0), fwOut);
        hwOut := Trim(DropAbove(YAxis, hwm.y), hwOut);
      } else if bed > f {
        fwOut := Trim(DropAbove(YAxis, 0.0), fwOut);
        hwOut := Trim(DropBelow(YAxis, hwm.y), hwOut);
      }
    } else if x < 0.0 {
      if bed == 0.0 {
        fwOut := Trim(DropAbove(YAxis, 0.0), fwOut);
        hwOut := Trim(DropAbove(XAxis, hwm.x), hwOut);
      } else if bed == 180.0 {
        fwOut := Trim(DropBelow(YAxis, 0.0), fwOut);
        hwOut := Trim(DropAbove(XAxis, hwm.x), hwOut);
      } else if bed < f {
        fwOut := Trim(DropAbove(YAxis, 0.0), fwOut);
        hwOut := Trim(DropBelow(YAxis, hwm.y), hwOut);
      } else if bed > f {
        fwOut := Trim(DropBelow(YAxis, 0.0), fwOut);
        hwOut := Trim(DropAbove(YAxis, hwm.y), hwOut);
      }
    }
    var rule := Table(SideOf(x), RelationOf(bed, f), hwm);
    if rule.footwall == KeepAll { TrimKeepAll(fw); }
    if rule.hangingwall == KeepAll { TrimKeepAll(hw); }
    TrimIsSubsequence(rule.footwall, fw);
    TrimIsSubsequence(rule.hangingwall, hw);
  }
}
