/**
 * `buildLedwallScene`: the 3D scene of the wall, shared by the interactive
 * viewer and the PNG export, as the list of meshes it adds (lights,
 * colours and the renderer are not modelled).
 *
 * Coordinates are in metres: x along the wall from its left edge, y up
 * from the floor, z backwards from the LED front face.
 */
module SceneBuilder {
  import opened Base
  import Types
  import Compute
  import Projector

  type Geometry = Projector.Geometry

  datatype Vec3 = Vec3(x: real, y: real, z: real)

  /** One line segment of a `LineSegments` object (consecutive point pairs). */
  datatype Segment = Segment(a: Vec3, b: Vec3)

  datatype Material =
    | ChordMetal | BracingLine | LedOn | LedOff | FrameLine
    | BarMetal | TubeRed | ClampGreen | PlateGrey | PlateBlack

  /** Axis a cylinder runs along (the geometry's own axis is y). */
  datatype Axis = AlongX | AlongY | AlongZ

  datatype Mesh =
    | Box(size: Vec3, material: Material, centre: Vec3)
    | Cylinder(radius: real, length: real, sides: int, material: Material, centre: Vec3, axis: Axis)
    | Outline(size: Vec3, centre: Vec3)
    | Lines(segments: seq<Segment>, material: Material)

  /** Everything the builder adds, grouped by the step that adds it. */
  datatype Scene = Scene(
    bottomBar: seq<Mesh>,
    /**
     * cabinet boxes, each followed by its edge outline, column-major:
     * cabinet (c, r) at index 2 * (c * rows + r), its outline just after
     */
    cabinets: seq<Mesh>,
    /** one assembly per leg position */
    legs: seq<seq<Mesh>>,
    tubes: seq<Mesh>,
    clamps: seq<Mesh>,
    spacers: seq<Mesh>
  )

  // ---------------------------------------------------------------------
  // Primitives

  function Coord(v: Vec3, a: Axis): real {
    match a
    case AlongX => v.x
    case AlongY => v.y
    case AlongZ => v.z
  }

  /** A cylinder with the builder's resolution rule: 12 sides above 2 cm radius, else 8. */
  function Cyl(r: real, h: real, m: Material, x: real, y: real, z: real, axis: Axis): (c: Mesh)
    ensures c.Cylinder? && c.radius == r && c.length == h && c.axis == axis
    ensures c.sides == 12 <==> r > 0.02
    ensures c.sides == 8 <==> r <= 0.02
  {
    Cylinder(r, h, if r > 0.02 then 12 else 8, m, Vec3(x, y, z), axis)
  }

  function Bx(w: real, h: real, d: real, m: Material, x: real, y: real, z: real): Mesh {
    Box(Vec3(w, h, d), m, Vec3(x, y, z))
  }

  /** The two ends of a cylinder along its own axis. */
  function Ends(c: Mesh): (real, real)
    requires c.Cylinder?
  {
    (Coord(c.centre, c.axis) - c.length / 2.0, Coord(c.centre, c.axis) + c.length / 2.0)
  }

  /** Lower and upper face of a box along an axis. */
  function Faces(b: Mesh, a: Axis): (real, real)
    requires b.Box?
  {
    (Coord(b.centre, a) - Coord(b.size, a) / 2.0, Coord(b.centre, a) + Coord(b.size, a) / 2.0)
  }

  // ---------------------------------------------------------------------
  // Bottom bar and cabinets

  function BottomBar(g: Geometry): (m: seq<Mesh>)
    ensures |m| == (if g.botBar > 0.0 then 1 else 0)
    ensures |m| == 1 ==>
      (m[0].Box? && Faces(m[0], AlongX) == (0.0, g.ledW) && Faces(m[0], AlongY) == (0.0, g.botBar))
  {
    if g.botBar > 0.0 then [Bx(g.ledW, g.botBar, 0.12, BarMetal, g.ledW / 2.0, g.botBar / 2.0, 0.0)] else []
  }

  /** A cabinet is dark in a dead row (counted from the bottom) or a dead side column. */
  predicate Dark(g: Geometry, c: int, r: int) {
    r < g.deadRows || c < g.deadCols || c >= g.cabCols - g.deadCols
  }

  /**
   * Cabinet box (c, r): 5 mm smaller than its cell, centred on the z = 0
   * plane of the LED front face.
   */
  function CabinetBox(g: Geometry, c: int, r: int): (m: Mesh)
    ensures m.Box? && m.size == Vec3(g.cabW - 0.005, g.cabH - 0.005, g.cabD) && m.centre.z == 0.0
    ensures m.material == LedOff <==> Dark(g, c, r)
    ensures m.material == LedOn <==> !Dark(g, c, r)
    ensures m.centre.x - g.cabW / 2.0 == c as real * g.cabW
    ensures m.centre.y - g.cabH / 2.0 == g.botBar + r as real * g.cabH
  {
    Bx(g.cabW - 0.005, g.cabH - 0.005, g.cabD, if Dark(g, c, r) then LedOff else LedOn,
       g.cabW / 2.0 + c as real * g.cabW, g.botBar + g.cabH / 2.0 + r as real * g.cabH, 0.0)
  }

  /** The edge outline of cabinet (c, r): the same size and centre as its box, in the frame line. */
  function CabinetFrame(g: Geometry, c: int, r: int): (m: Mesh)
    ensures m.Outline? && m.size == CabinetBox(g, c, r).size && m.centre == CabinetBox(g, c, r).centre
  {
    Outline(Vec3(g.cabW - 0.005, g.cabH - 0.005, g.cabD),
            Vec3(g.cabW / 2.0 + c as real * g.cabW, g.botBar + g.cabH / 2.0 + r as real * g.cabH, 0.0))
  }

  /** Rows 0 .. n-1 of column c, bottom to top, each box followed by its outline. */
  function Column(g: Geometry, c: int, n: int): (m: seq<Mesh>)
    ensures |m| == 2 * MaxI(0, n)
    ensures forall r :: 0 <= r < MaxI(0, n) ==> m[2 * r] == CabinetBox(g, c, r)
    ensures forall r :: 0 <= r < MaxI(0, n) ==> m[2 * r + 1] == CabinetFrame(g, c, r)
    decreases n
  {
    if n <= 0 then [] else Column(g, c, n - 1) + [CabinetBox(g, c, n - 1), CabinetFrame(g, c, n - 1)]
  }

  /** Columns 0 .. n-1, left to right. */
  function CabinetGrid(g: Geometry, n: int): (m: seq<Mesh>)
    ensures |m| == 2 * (MaxI(0, n) * MaxI(0, g.cabRows))
    decreases n
  {
    if n <= 0 then [] else CabinetGrid(g, n - 1) + Column(g, n - 1, g.cabRows)
  }

  /**
   * Cabinet (c, r) sits at index 2 * (c * rows + r) of the grid, with its
   * outline just after: columns are laid out left to right, each bottom to
   * top.
   */
  lemma {:induction false} CabinetGridIndex(g: Geometry, n: int, c: int, r: int)
    requires 0 <= c < n && 0 <= r < g.cabRows
    ensures 2 * (c * g.cabRows + r) + 1 < |CabinetGrid(g, n)|
    ensures CabinetGrid(g, n)[2 * (c * g.cabRows + r)] == CabinetBox(g, c, r)
    ensures CabinetGrid(g, n)[2 * (c * g.cabRows + r) + 1] == CabinetFrame(g, c, r)
    decreases n
  {
    var rows := g.cabRows;
    var prefix := CabinetGrid(g, n - 1);
    var col := Column(g, n - 1, rows);
    assert |prefix| == 2 * ((n - 1) * rows);
    assert CabinetGrid(g, n) == prefix + col;
    RowBelow(c, n, rows);
    if c < n - 1 {
      CabinetGridIndex(g, n - 1, c, r);
      RowBelow(c, n - 1, rows);
    } else {
      assert 2 * (c * rows) == |prefix|;
      assert (prefix + col)[|prefix| + 2 * r] == col[2 * r];
      assert (prefix + col)[|prefix| + 2 * r + 1] == col[2 * r + 1];
    }
  }

  /** Cabinet (c, r)'s box sits at index 2 * (c * rows + r) of `m`, its outline just after. */
  predicate CabinetAt(m: seq<Mesh>, g: Geometry, c: int, r: int) {
    var i := 2 * (c * g.cabRows + r);
    0 <= i && i + 1 < |m| && m[i] == CabinetBox(g, c, r) && m[i + 1] == CabinetFrame(g, c, r)
  }

  /** Every cabinet of the wall, box and outline, at its place in the grid. */
  lemma CabinetGridAll(g: Geometry)
    ensures forall c, r :: 0 <= c < g.cabCols && 0 <= r < g.cabRows ==>
      CabinetAt(CabinetGrid(g, g.cabCols), g, c, r)
  {
    forall c, r | 0 <= c < g.cabCols && 0 <= r < g.cabRows
      ensures CabinetAt(CabinetGrid(g, g.cabCols), g, c, r)
    {
      CabinetGridIndex(g, g.cabCols, c, r);
    }
  }

  // ---------------------------------------------------------------------
  // Lit cabinets

  /** Number of lit cabinet boxes in a list (outlines are never lit). */
  function LitCount(m: seq<Mesh>): nat
    decreases |m|
  {
    if |m| == 0 then 0
    else LitCount(m[..|m| - 1]) + (if m[|m| - 1].Box? && m[|m| - 1].material == LedOn then 1 else 0)
  }

  lemma {:induction false} LitCountAppend(a: seq<Mesh>, b: seq<Mesh>)
    ensures LitCount(a + b) == LitCount(a) + LitCount(b)
    decreases |b|
  {
    if |b| > 0 {
      assert (a + b)[..|a + b| - 1] == a + b[..|b| - 1];
      LitCountAppend(a, b[..|b| - 1]);
    } else {
      assert a + b == a;
    }
  }

  /** A box followed by its outline adds one lit box exactly when the box is lit. */
  lemma LitCountPair(box: Mesh, frame: Mesh)
    requires frame.Outline?
    ensures LitCount([box, frame]) == if box.Box? && box.material == LedOn then 1 else 0
  {
    var m := [box, frame];
    assert m[..1] == [box];
    assert [box][..0] == [];
    assert LitCount([box]) == LitCount([]) + (if box.Box? && box.material == LedOn then 1 else 0);
    assert LitCount(m) == LitCount(m[..1]) + 0;
  }

  /** A column is lit unless it is one of the dead side columns. */
  predicate ColumnLit(g: Geometry, c: int) {
    !(c < g.deadCols || c >= g.cabCols - g.deadCols)
  }

  /** Rows that are not dead. */
  function LitRows(g: Geometry): nat {
    MaxI(0, g.cabRows - MaxI(0, g.deadRows))
  }

  /** Lit columns among 0 .. n-1, counted one by one. */
  function LitColumnsBelow(g: Geometry, n: int): nat
    decreases n
  {
    if n <= 0 then 0 else LitColumnsBelow(g, n - 1) + (if ColumnLit(g, n - 1) then 1 else 0)
  }

  lemma {:induction false} ColumnLitCount(g: Geometry, c: int, n: int)
    requires n >= 0
    ensures LitCount(Column(g, c, n)) == if ColumnLit(g, c) then MaxI(0, n - MaxI(0, g.deadRows)) else 0
    decreases n
  {
    if n > 0 {
      var m := Column(g, c, n);
      var prev := Column(g, c, n - 1);
      var pair := [CabinetBox(g, c, n - 1), CabinetFrame(g, c, n - 1)];
      assert m == prev + pair;
      var lit := pair[0].Box? && pair[0].material == LedOn;
      LitCountAppend(prev, pair);
      LitCountPair(pair[0], pair[1]);
      assert LitCount(m) == LitCount(prev) + (if lit then 1 else 0);
      assert lit <==> ColumnLit(g, c) && n - 1 >= g.deadRows;
      ColumnLitCount(g, c, n - 1);
      LitStep(LitCount(m), LitCount(prev), lit, ColumnLit(g, c), n, g.deadRows);
    }
  }

  /** One more row lights one more box exactly when the column is lit and the row is past the dead ones. */
  lemma LitStep(total: int, before: int, lit: bool, columnLit: bool, n: int, deadRows: int)
    requires n >= 1
    requires total == before + (if lit then 1 else 0)
    requires before == if columnLit then MaxI(0, n - 1 - MaxI(0, deadRows)) else 0
    requires lit <==> columnLit && n - 1 >= deadRows
    ensures total == if columnLit then MaxI(0, n - MaxI(0, deadRows)) else 0
  {
  }

  lemma {:induction false} GridLitCount(g: Geometry, n: int)
    requires n >= 0
    ensures LitCount(CabinetGrid(g, n)) == LitColumnsBelow(g, n) * LitRows(g)
    decreases n
  {
    if n > 0 {
      var rows := g.cabRows;
      var prev := CabinetGrid(g, n - 1);
      var col := Column(g, n - 1, rows);
      var k := LitColumnsBelow(g, n - 1);
      var e := if ColumnLit(g, n - 1) then 1 else 0;
      var l := LitRows(g);
      assert CabinetGrid(g, n) == prev + col;
      LitCountAppend(prev, col);
      GridLitCount(g, n - 1);
      ColumnLitTimes(g, n - 1, col, e, l);
      assert LitColumnsBelow(g, n) == k + e;
      Distribute(LitCount(prev + col), LitCount(prev), LitCount(col), k, e, l);
    }
  }

  lemma ColumnLitTimes(g: Geometry, c: int, col: seq<Mesh>, e: int, l: int)
    requires col == Column(g, c, g.cabRows) && l == LitRows(g)
    requires e == if ColumnLit(g, c) then 1 else 0
    ensures LitCount(col) == e * l
  {
    if g.cabRows >= 0 {
      ColumnLitCount(g, c, g.cabRows);
    } else {
      assert col == [];
    }
  }

  lemma Distribute(total: int, a: int, b: int, k: int, e: int, l: int)
    requires total == a + b && a == k * l && b == e * l
    ensures total == (k + e) * l
  {
  }

  /** Side columns are dead symmetrically: all but 2 * deadCols columns stay lit. */
  lemma {:induction false} LitColumnsClosedForm(g: Geometry, n: int)
    requires 0 <= n <= g.cabCols
    ensures LitColumnsBelow(g, n)
            == MaxI(0, MinI(n, g.cabCols - MaxI(0, g.deadCols)) - MaxI(0, g.deadCols))
    decreases n
  {
    if n > 0 {
      LitColumnsClosedForm(g, n - 1);
    }
  }

  /**
   * The lit cabinets: every column outside the dead side columns times every
   * row above the dead bottom rows.
   */
  lemma LitCabinets(g: Geometry)
    ensures LitCount(CabinetGrid(g, g.cabCols))
            == MaxI(0, g.cabCols - 2 * MaxI(0, g.deadCols)) * LitRows(g)
  {
    if g.cabCols >= 0 {
      GridLitCount(g, g.cabCols);
      LitColumnsClosedForm(g, g.cabCols);
    } else {
      assert CabinetGrid(g, g.cabCols) == [];
    }
  }

  // ---------------------------------------------------------------------
  // Legs

  /** Bays of bracing along the leg height. */
  const Bays: int := 4

  /** A point on one of the four chords of a square truss centred at (lx, zc). */
  predicate OnSquareCorner(v: Vec3, lx: real, qh: real, zc: real) {
    (v.x == lx - qh || v.x == lx + qh) && (v.z == zc - qh || v.z == zc + qh)
  }

  /**
   * A segment that stays on the chords and is level or rises one bay; for a
   * non-negative leg height it stays within the leg.
   */
  predicate SquareBrace(s: Segment, lx: real, qh: real, zc: real, bh: real) {
    && OnSquareCorner(s.a, lx, qh, zc) && OnSquareCorner(s.b, lx, qh, zc)
    && (s.b.y == s.a.y || s.b.y == s.a.y + bh)
    && (bh >= 0.0 ==> 0.0 <= s.a.y <= s.b.y <= Bays as real * bh)
  }

  lemma BayHeights(i: int, bh: real)
    requires 0 <= i <= Bays
    ensures bh >= 0.0 ==> 0.0 <= i as real * bh <= Bays as real * bh
  {
    if bh >= 0.0 {
      assert (Bays - i) as real * bh >= 0.0;
    }
  }

  /** Level i of the square bracing: the four level ties, then (below the top) the face diagonals of bay i. */
  function SquareLevel(lx: real, qh: real, zc: real, bh: real, i: int): (r: seq<Segment>)
    requires 0 <= i <= Bays
    ensures |r| == if i < Bays then 12 else 4
    ensures forall k :: 0 <= k < |r| ==> SquareBrace(r[k], lx, qh, zc, bh)
  {
    var y := i as real * bh;
    BayHeights(i, bh);
    var a := Vec3(lx - qh, y, zc - qh);
    var b := Vec3(lx + qh, y, zc - qh);
    var c := Vec3(lx - qh, y, zc + qh);
    var d := Vec3(lx + qh, y, zc + qh);
    var ties := [Segment(a, b), Segment(c, d), Segment(a, c), Segment(b, d)];
    if i < Bays then
      var yn := (i + 1) as real * bh;
      BayHeights(i + 1, bh);
      var a' := Vec3(lx - qh, yn, zc - qh);
      var b' := Vec3(lx + qh, yn, zc - qh);
      var c' := Vec3(lx - qh, yn, zc + qh);
      var d' := Vec3(lx + qh, yn, zc + qh);
      ties + [Segment(a, b'), Segment(b, a'),
              Segment(c, d'), Segment(d, c'),
              Segment(a, c'), Segment(c, a'),
              Segment(b, d'), Segment(d, b')]
    else ties
  }

  /** Levels 0 .. n-1 of the square bracing. */
  function SquareBracing(lx: real, qh: real, zc: real, bh: real, n: int): (r: seq<Segment>)
    requires n <= Bays + 1
    ensures |r| == if n <= 0 then 0 else if n <= Bays then 12 * n else 12 * Bays + 4
    ensures forall k :: 0 <= k < |r| ==> SquareBrace(r[k], lx, qh, zc, bh)
    decreases n
  {
    if n <= 0 then [] else SquareBracing(lx, qh, zc, bh, n - 1) + SquareLevel(lx, qh, zc, bh, n - 1)
  }

  /**
   * A ladder brace: from one chord to the chord diagonally opposite (other
   * side and other face), rising exactly one bay within the leg height.
   */
  predicate LadderBrace(s: Segment, xL: real, xR: real, zF: real, zB: real, bh: real) {
    && ((s.a.x == xL && s.b.x == xR) || (s.a.x == xR && s.b.x == xL))
    && ((s.a.z == zF && s.b.z == zB) || (s.a.z == zB && s.b.z == zF))
    && s.b.y == s.a.y + bh
    && (bh >= 0.0 ==> 0.0 <= s.a.y && s.b.y <= Bays as real * bh)
  }

  predicate AllLadderBraces(ss: seq<Segment>, xL: real, xR: real, zF: real, zB: real, bh: real) {
    forall k :: 0 <= k < |ss| ==> LadderBrace(ss[k], xL, xR, zF, zB, bh)
  }

  /** Bay i of the ladder bracing: four crossing diagonals. */
  function LadderBay(xL: real, xR: real, zF: real, zB: real, bh: real, i: int): (r: seq<Segment>)
    requires 0 <= i < Bays
    ensures |r| == 4
    ensures forall k :: 0 <= k < |r| ==> LadderBrace(r[k], xL, xR, zF, zB, bh)
  {
    var y := i as real * bh;
    var yn := (i + 1) as real * bh;
    BayHeights(i, bh);
    BayHeights(i + 1, bh);
    [Segment(Vec3(xL, y, zF), Vec3(xR, yn, zB)),
     Segment(Vec3(xR, y, zB), Vec3(xL, yn, zF)),
     Segment(Vec3(xR, y, zF), Vec3(xL, yn, zB)),
     Segment(Vec3(xL, y, zB), Vec3(xR, yn, zF))]
  }

  /** Bays 0 .. n-1 of the ladder bracing. */
  function LadderBracing(xL: real, xR: real, zF: real, zB: real, bh: real, n: int): (r: seq<Segment>)
    requires n <= Bays
    ensures |r| == 4 * MaxI(0, n)
    ensures forall k :: 0 <= k < |r| ==> LadderBrace(r[k], xL, xR, zF, zB, bh)
    decreases n
  {
    if n <= 0 then [] else LadderBracing(xL, xR, zF, zB, bh, n - 1) + LadderBay(xL, xR, zF, zB, bh, n - 1)
  }

  /** A vertical chord standing on the floor and reaching the leg height. */
  predicate StandingChord(m: Mesh, g: Geometry) {
    m.Cylinder? && m.axis == AlongY && m.radius == g.chordR && Ends(m) == (0.0, g.legH)
  }

  /**
   * Base plate under a leg at lx: centred on the leg across the wall, its
   * LED-side edge `basePlateInset` in front of the truss front face.
   */
  predicate PlaceUnder(m: Mesh, g: Geometry, lx: real) {
    && m.Box?
    && Faces(m, AlongX) == (lx - g.basePlateW / 2.0, lx + g.basePlateW / 2.0)
    && Faces(m, AlongZ) == (g.zTf - g.basePlateInset, g.zTf - g.basePlateInset + g.basePlateD)
  }

  function PlateAt(g: Geometry, lx: real, thickness: real, y: real, m: Material): (b: Mesh)
    ensures PlaceUnder(b, g, lx)
  {
    Bx(g.basePlateW, thickness, g.basePlateD, m, lx, y, g.zTf - g.basePlateInset + g.basePlateD / 2.0)
  }

  /** The four vertical chords of a square leg, at the corners around (lx, Z_TC). */
  function SquareChords(g: Geometry, lx: real): (m: seq<Mesh>)
    ensures |m| == 4
    ensures forall k :: 0 <= k < 4 ==>
      StandingChord(m[k], g) && OnSquareCorner(m[k].centre, lx, g.qh, g.zTc)
  {
    var qh := g.qh;
    var zc := g.zTc;
    var h := g.legH;
    [Cyl(g.chordR, h, ChordMetal, lx - qh, h / 2.0, zc - qh, AlongY),
     Cyl(g.chordR, h, ChordMetal, lx + qh, h / 2.0, zc - qh, AlongY),
     Cyl(g.chordR, h, ChordMetal, lx - qh, h / 2.0, zc + qh, AlongY),
     Cyl(g.chordR, h, ChordMetal, lx + qh, h / 2.0, zc + qh, AlongY)]
  }

  /** The four arm chords of a square leg, from the truss back face to the arm end. */
  function SquareArms(g: Geometry, lx: real): (m: seq<Mesh>)
    ensures |m| == 4
    ensures forall k :: 0 <= k < 4 ==>
      m[k].Cylinder? && m[k].axis == AlongZ && Ends(m[k]) == (g.zTb, g.zTb + g.legArm)
      && (m[k].centre.x == lx - g.qh || m[k].centre.x == lx + g.qh)
  {
    var qh := g.qh;
    var zMid := (g.zTb + (g.zTb + g.legArm)) / 2.0;
    [Cyl(g.chordR, g.legArm, ChordMetal, lx - qh, g.chordR, zMid, AlongZ),
     Cyl(g.chordR, g.legArm, ChordMetal, lx + qh, g.chordR, zMid, AlongZ),
     Cyl(g.chordR, g.legArm, ChordMetal, lx - qh, g.qx - g.chordR, zMid, AlongZ),
     Cyl(g.chordR, g.legArm, ChordMetal, lx + qh, g.qx - g.chordR, zMid, AlongZ)]
  }

  /**
   * Square (QX30) leg at lx: four chords at the corners of a square of side
   * QX centred on the truss centre plane, 52 bracing segments over four
   * bays, four arm chords running back from the truss back face by the arm
   * length, and (optionally) a 15 mm plate.
   */
  function SquareLeg(g: Geometry, lx: real, basePlate: bool): (m: seq<Mesh>)
    ensures |m| == if basePlate then 10 else 9
    ensures m[..4] == SquareChords(g, lx) && m[5..9] == SquareArms(g, lx)
    ensures m[4].Lines? && |m[4].segments| == 52
    ensures forall k :: 0 <= k < |m[4].segments| ==>
      SquareBrace(m[4].segments[k], lx, g.qh, g.zTc, g.legH / 4.0)
    ensures basePlate ==> PlaceUnder(m[9], g, lx) && m[9].size.y == 0.015
  {
    var bracing := Lines(SquareBracing(lx, g.qh, g.zTc, g.legH / Bays as real, Bays + 1), BracingLine);
    var plate := if basePlate then [PlateAt(g, lx, 0.015, 0.008, PlateGrey)] else [];
    SquareChords(g, lx) + [bracing] + SquareArms(g, lx) + plate
  }

  /** The four vertical chords of a ladder leg, on the truss front and back planes. */
  function LadderChords(g: Geometry, lx: real): (m: seq<Mesh>)
    ensures |m| == 4
    ensures forall k :: 0 <= k < 4 ==>
      && StandingChord(m[k], g)
      && (m[k].centre.x == lx - g.qxDepth / 2.0 || m[k].centre.x == lx + g.qxDepth / 2.0)
      && (m[k].centre.z == g.zTf || m[k].centre.z == g.zTb)
  {
    var h := g.legH;
    var xL := lx - g.qxDepth / 2.0;
    var xR := lx + g.qxDepth / 2.0;
    [Cyl(g.chordR, h, ChordMetal, xL, h / 2.0, g.zTf, AlongY),
     Cyl(g.chordR, h, ChordMetal, xR, h / 2.0, g.zTf, AlongY),
     Cyl(g.chordR, h, ChordMetal, xL, h / 2.0, g.zTb, AlongY),
     Cyl(g.chordR, h, ChordMetal, xR, h / 2.0, g.zTb, AlongY)]
  }

  /**
   * Flat (FX30) leg at lx: an optional 20 mm plate, four chords at the
   * corners of a QX_DEPTH-wide ladder spanning the truss front and back
   * planes, 16 crossing diagonals over four bays, and no arm.
   */
  function LadderLeg(g: Geometry, lx: real, basePlate: bool): (m: seq<Mesh>)
    ensures |m| == if basePlate then 6 else 5
    ensures basePlate ==> PlaceUnder(m[0], g, lx) && m[0].size.y == 0.02
    ensures m[|m| - 5..|m| - 1] == LadderChords(g, lx)
    ensures m[|m| - 1].Lines? && |m[|m| - 1].segments| == 16
    ensures AllLadderBraces(m[|m| - 1].segments, lx - g.qxDepth / 2.0, lx + g.qxDepth / 2.0,
                            g.zTf, g.zTb, g.legH / 4.0)
    ensures forall k :: 0 <= k < |m| && m[k].Cylinder? ==> m[k].axis == AlongY
  {
    var plate := if basePlate then [PlateAt(g, lx, 0.02, 0.01, PlateBlack)] else [];
    var bracing := LadderBracing(lx - g.qxDepth / 2.0, lx + g.qxDepth / 2.0, g.zTf, g.zTb,
                                 g.legH / Bays as real, Bays);
    plate + LadderChords(g, lx) + [Lines(bracing, BracingLine)]
  }

  /**
   * The leg builder follows the truss kind: a flat truss stands on a ladder
   * leg with chords on the truss front and back planes and no arm, a square
   * truss on a four-chord leg around the truss centre with its arms.
   */
  function Leg(g: Geometry, lx: real, basePlate: bool): (m: seq<Mesh>)
    ensures |m| == (if g.isFlat then 5 else 9) + (if basePlate then 1 else 0)
    ensures g.isFlat ==> m == LadderLeg(g, lx, basePlate)
    ensures !g.isFlat ==> m == SquareLeg(g, lx, basePlate)
    ensures basePlate ==> PlaceUnder(m[if g.isFlat then 0 else 9], g, lx)
    ensures g.isFlat ==> m[|m| - 5..|m| - 1] == LadderChords(g, lx)
    ensures !g.isFlat ==> m[..4] == SquareChords(g, lx) && m[5..9] == SquareArms(g, lx)
  {
    if g.isFlat then LadderLeg(g, lx, basePlate) else SquareLeg(g, lx, basePlate)
  }

  // ---------------------------------------------------------------------
  // Horizontal tubes and clamps

  /** Tubes and clamps are drawn only between at least two legs, and only when there are tubes. */
  predicate HasTubes(g: Geometry) {
    |g.legX| >= 2 && |g.tubeY| > 0
  }

  /** One tube per tube height, running along x from the first leg to the last, at Z_TUBE. */
  function Tubes(g: Geometry, zTube: real): (t: seq<Mesh>)
    ensures |t| == if HasTubes(g) then |g.tubeY| else 0
    ensures forall k :: 0 <= k < |t| ==>
      && t[k].Cylinder? && t[k].axis == AlongX && t[k].radius == g.tubeR
      && Ends(t[k]) == (g.legX[0], g.legX[|g.legX| - 1])
      && t[k].centre.y == g.tubeY[k] && t[k].centre.z == zTube
  {
    if HasTubes(g) then
      var first := g.legX[0];
      var last := g.legX[|g.legX| - 1];
      var span := last - first;
      var xMid := (first + last) / 2.0;
      seq(|g.tubeY|, k requires 0 <= k < |g.tubeY| => Cyl(g.tubeR, span, TubeRed, xMid, g.tubeY[k], zTube, AlongX))
    else []
  }

  /** A tube clamp: a 65 x 65 x 100 mm block at a leg, a tube height and a depth. */
  function ClampBox(lx: real, ty: real, z: real): Mesh {
    Bx(0.065, 0.065, 0.1, ClampGreen, lx, ty, z)
  }

  /** The clamp pairs of one leg: for each tube, one at Z_TUBE and one 6 cm in front of it. */
  function LegClamps(lx: real, tubeY: seq<real>, zTube: real): (m: seq<Mesh>)
    ensures |m| == 2 * |tubeY|
    ensures forall j :: 0 <= j < |tubeY| ==>
      m[2 * j] == ClampBox(lx, tubeY[j], zTube) && m[2 * j + 1] == ClampBox(lx, tubeY[j], zTube - 0.06)
    decreases |tubeY|
  {
    if |tubeY| == 0 then []
    else
      LegClamps(lx, tubeY[..|tubeY| - 1], zTube)
      + [ClampBox(lx, tubeY[|tubeY| - 1], zTube), ClampBox(lx, tubeY[|tubeY| - 1], zTube - 0.06)]
  }

  /** The clamps of all legs, leg by leg. */
  function AllClamps(legX: seq<real>, tubeY: seq<real>, zTube: real): (m: seq<Mesh>)
    ensures |m| == 2 * |legX| * |tubeY|
    decreases |legX|
  {
    if |legX| == 0 then []
    else AllClamps(legX[..|legX| - 1], tubeY, zTube) + LegClamps(legX[|legX| - 1], tubeY, zTube)
  }

  /**
   * Every (leg, tube) pair gets its clamp pair, at index 2 * (i * tubes + j)
   * for leg i and tube j.
   */
  lemma {:induction false} AllClampsIndex(legX: seq<real>, tubeY: seq<real>, zTube: real, i: int, j: int)
    requires 0 <= i < |legX| && 0 <= j < |tubeY|
    ensures var m := AllClamps(legX, tubeY, zTube);
      var k := 2 * (i * |tubeY| + j);
      && k + 1 < |m|
      && m[k] == ClampBox(legX[i], tubeY[j], zTube)
      && m[k + 1] == ClampBox(legX[i], tubeY[j], zTube - 0.06)
    decreases |legX|
  {
    var n := |legX|;
    var t := |tubeY|;
    var front := legX[..n - 1];
    var prefix := AllClamps(front, tubeY, zTube);
    var here := LegClamps(legX[n - 1], tubeY, zTube);
    var k := 2 * (i * t + j);
    assert AllClamps(legX, tubeY, zTube) == prefix + here;
    BlockIndex(i, j, n, t);
    if i < n - 1 {
      BlockIndex(i, j, n - 1, t);
      AllClampsIndex(front, tubeY, zTube, i, j);
      assert front[i] == legX[i];
    } else {
      LastBlock(n, t, j, |prefix|);
      assert k == |prefix| + 2 * j;
    }
  }

  /** Position of entry (i, j) in a row-major n x t block of pairs. */
  lemma BlockIndex(i: int, j: int, n: int, t: int)
    requires 0 <= i < n && 0 <= j < t
    ensures 0 <= 2 * (i * t + j) && 2 * (i * t + j) + 1 < 2 * n * t
  {
    RowBelow(i, n, t);
    assert 2 * n * t == 2 * (n * t);
  }

  /** Row i of n ends no later than the block: i * t + t <= n * t. */
  lemma RowBelow(i: int, n: int, t: int)
    requires 0 <= i < n && t >= 0
    ensures i * t + t <= n * t
  {
    var d := n - i - 1;
    assert n * t == i * t + t + d * t;
    assert d * t >= 0;
  }

  lemma LastBlock(n: int, t: int, j: int, p: int)
    requires p == 2 * (n - 1) * t
    ensures 2 * ((n - 1) * t + j) == p + 2 * j
  {
  }

  /** Clamps, when tubes are drawn. */
  function Clamps(g: Geometry, zTube: real): (m: seq<Mesh>)
    ensures |m| == if HasTubes(g) then 2 * |g.legX| * |g.tubeY| else 0
  {
    if HasTubes(g) then AllClamps(g.legX, g.tubeY, zTube) else []
  }

  // ---------------------------------------------------------------------
  // Direct mounting without tubes

  /** Spacers are drawn when there are legs and no tubes. */
  predicate HasSpacers(g: Geometry) {
    |g.legX| > 0 && |g.tubeY| == 0
  }

  /** The two spacer heights: a third and two thirds up the LED. */
  function SpacerHeights(g: Geometry): seq<real> {
    [g.botBar + g.ledH * 0.33, g.botBar + g.ledH * 0.67]
  }

  /**
   * One spacer station: a 2 cm bar bridging the gap from the cabinet back to
   * the truss front, a clamp centred on the truss front plane and one
   * against the cabinet back.
   */
  function SpacerStation(g: Geometry, lx: real, sy: real): (m: seq<Mesh>)
    ensures |m| == 3
    ensures m[0].Cylinder? && m[0].axis == AlongZ && m[0].radius == 0.02 && Ends(m[0]) == (g.cabD, g.zTf)
    ensures m[1].Box? && m[1].centre.z == g.zTf && m[1].size.z == 0.08
    ensures m[2].Box? && Faces(m[2], AlongZ).0 == g.cabD && m[2].size.z == 0.06
    ensures forall k :: 0 <= k < 3 ==> m[k].centre.x == lx && m[k].centre.y == sy
  {
    var len := g.zTf - g.cabD;
    [Cyl(0.02, len, BarMetal, lx, sy, g.cabD + len / 2.0, AlongZ),
     Bx(0.07, 0.07, 0.08, ClampGreen, lx, sy, g.zTf),
     Bx(0.07, 0.07, 0.06, ClampGreen, lx, sy, g.cabD + 0.03)]
  }

  function LegSpacers(g: Geometry, lx: real): (m: seq<Mesh>)
    ensures |m| == 6
    ensures m[..3] == SpacerStation(g, lx, SpacerHeights(g)[0])
    ensures m[3..] == SpacerStation(g, lx, SpacerHeights(g)[1])
  {
    var h := SpacerHeights(g);
    SpacerStation(g, lx, h[0]) + SpacerStation(g, lx, h[1])
  }

  /** Spacers of all legs, leg by leg. */
  function AllSpacers(g: Geometry, legX: seq<real>): (m: seq<Mesh>)
    ensures |m| == 6 * |legX|
    ensures forall k :: 0 <= k < |m| ==>
      !m[k].Lines? && m[k].centre.x in legX && m[k].centre.y in SpacerHeights(g)
    ensures forall k :: 0 <= k < |m| && m[k].Cylinder? ==> Ends(m[k]) == (g.cabD, g.zTf)
    decreases |legX|
  {
    if |legX| == 0 then []
    else
      var front := legX[..|legX| - 1];
      var lx := legX[|legX| - 1];
      var prev := AllSpacers(g, front);
      var here := LegSpacers(g, lx);
      assert forall k :: 0 <= k < |prev| ==> !prev[k].Lines? && prev[k].centre.x in legX by {
        forall k | 0 <= k < |prev| ensures !prev[k].Lines? && prev[k].centre.x in legX {
          var x := prev[k].centre.x;
          var i :| 0 <= i < |front| && front[i] == x;
          assert legX[i] == x;
        }
      }
      assert forall k :: 0 <= k < |here| ==> !here[k].Lines? && here[k].centre.x == lx && here[k].centre.y in SpacerHeights(g);
      prev + here
  }

  function Spacers(g: Geometry): (m: seq<Mesh>)
    ensures |m| == if HasSpacers(g) then 6 * |g.legX| else 0
  {
    if HasSpacers(g) then AllSpacers(g, g.legX) else []
  }

  // ---------------------------------------------------------------------
  // The scene

  /**
   * `buildLedwallScene(P, basePlate)`. Z_TUBE is supplied by the caller
   * next to the P record, so it is a separate parameter here.
   */
  function BuildLedwallScene(g: Geometry, zTube: real, basePlate: bool): (sc: Scene)
    ensures |sc.bottomBar| == (if g.botBar > 0.0 then 1 else 0)
    ensures |sc.cabinets| == 2 * (MaxI(0, g.cabCols) * MaxI(0, g.cabRows))
    ensures forall c, r :: 0 <= c < g.cabCols && 0 <= r < g.cabRows ==> CabinetAt(sc.cabinets, g, c, r)
    ensures |sc.legs| == |g.legX|
    ensures forall i :: 0 <= i < |sc.legs| ==> sc.legs[i] == Leg(g, g.legX[i], basePlate)
    ensures |sc.tubes| == (if HasTubes(g) then |g.tubeY| else 0)
    ensures |sc.clamps| == (if HasTubes(g) then 2 * |g.legX| * |g.tubeY| else 0)
    ensures |sc.spacers| == (if HasSpacers(g) then 6 * |g.legX| else 0)
  {
    CabinetGridAll(g);
    Scene(
      BottomBar(g),
      CabinetGrid(g, g.cabCols),
      seq(|g.legX|, i requires 0 <= i < |g.legX| => Leg(g, g.legX[i], basePlate)),
      Tubes(g, zTube),
      Clamps(g, zTube),
      Spacers(g))
  }

  // ---------------------------------------------------------------------
  // The scene against the project

  /** Tubes and spacers never appear together; a single leg gets neither. */
  lemma FixingsExclusive(g: Geometry, zTube: real, basePlate: bool)
    ensures var sc := BuildLedwallScene(g, zTube, basePlate);
      && (sc.tubes == [] || sc.spacers == [])
      && (|g.legX| == 1 && |g.tubeY| > 0 ==> sc.tubes == [] && sc.spacers == [] && sc.clamps == [])
  {
  }

  /**
   * A cabinet box is centred on z = 0, so its back face lies half a cabinet
   * depth behind the front plane, while the record puts the LED back (where
   * the spacers start) a whole cabinet depth behind it.
   */
  lemma CabinetBackHalfDepth(p: Types.Project, c: int, r: int)
    ensures var g := Projector.ProjectToP(p);
      var m := CabinetBox(g, c, r);
      && m.centre.z - m.size.z / 2.0 == -g.cabD / 2.0
      && m.centre.z + m.size.z / 2.0 == g.zLedBack / 2.0
  {
    var g := Projector.ProjectToP(p);
    assert g.zLedBack == g.cabD;
  }

  /**
   * The spacer bars of a projected scene are exactly as long as the front
   * gap, since the cabinet depth and the LED back plane coincide.
   */
  lemma SpacerBridgesGap(p: Types.Project, zTube: real, basePlate: bool)
    ensures var g := Projector.ProjectToP(p);
      var sc := BuildLedwallScene(g, zTube, basePlate);
      forall k :: 0 <= k < |sc.spacers| && sc.spacers[k].Cylinder? ==> sc.spacers[k].length == g.zGap
  {
    var g := Projector.ProjectToP(p);
    assert g.cabD == g.zLedBack;
    if HasSpacers(g) {
      var m := AllSpacers(g, g.legX);
      forall k | 0 <= k < |m| && m[k].Cylinder? ensures m[k].length == g.zGap {
        assert Ends(m[k]) == (g.cabD, g.zTf);
      }
    }
  }

  /**
   * Lit cabinets versus the engine's active tiles: they agree exactly when
   * the dead-row count is not negative and either no side column is dead or
   * no row is lit at all. Dead side columns are dimmed in the scene but
   * still counted active by the engine, and a negative dead-row count adds
   * phantom active rows in the engine only.
   */
  lemma LitMatchesActiveIff(p: Types.Project, zTube: real, basePlate: bool)
    requires Projector.GridCurrent(p)
    ensures var g := Projector.ProjectToP(p);
      var sc := BuildLedwallScene(g, zTube, basePlate);
      var dr := p.led.deadRows;
      LitCount(sc.cabinets) == p.computed.activeTiles
      <==> dr >= 0 && (p.led.deadCols <= 0 || dr >= p.computed.rows)
  {
    var g := Projector.ProjectToP(p);
    var grid := Compute.Grid(p.led);
    assert BuildLedwallScene(g, zTube, basePlate).cabinets == CabinetGrid(g, g.cabCols);
    LitCabinets(g);
    LitVersusActive(grid.cols, grid.rows, p.led.deadRows, p.led.deadCols);
  }

  lemma LitVersusActive(cols: int, rows: int, dr: int, dc: int)
    requires cols >= 1 && rows >= 1
    ensures MaxI(0, cols - 2 * MaxI(0, dc)) * MaxI(0, rows - MaxI(0, dr)) == cols * MaxI(0, rows - dr)
            <==> dr >= 0 && (dc <= 0 || dr >= rows)
  {
    var c := MaxI(0, cols - 2 * MaxI(0, dc));
    assert 0 <= c <= cols;
    if dr < 0 {
      MulMonotoneStrict(cols, rows, rows - dr);
      Compute.MulMonotone(rows, c, cols);
      assert c * rows <= cols * rows;
    } else if dr < rows {
      var r := rows - dr;
      assert c * r == cols * r <==> c == cols by {
        if c != cols {
          MulMonotoneStrict(r, c, cols);
        }
      }
    }
  }

  lemma MulMonotoneStrict(a: int, b: int, c: int)
    requires a >= 1 && 0 <= b < c
    ensures a * b < a * c && b * a < c * a
  {
  }

  /**
   * When the wall is a whole number of tiles each way, the cabinet cells
   * tile it exactly: the last column ends at the wall's right edge and the
   * top row at the top of the LED, above the bottom bar.
   */
  lemma CabinetsFillWall(p: Types.Project, kw: int, kh: int)
    requires Projector.GridCurrent(p)
    requires p.led.tileWidthMm >= 1.0 && p.led.tileHeightMm >= 1.0 && kw >= 1 && kh >= 1
    requires p.led.widthMm == kw as real * p.led.tileWidthMm
    requires p.led.heightMm == kh as real * p.led.tileHeightMm
    ensures var g := Projector.ProjectToP(p);
      var top := CabinetBox(g, g.cabCols - 1, g.cabRows - 1);
      && g.cabCols == kw && g.cabRows == kh
      && top.centre.x + g.cabW / 2.0 == g.ledW
      && top.centre.y + g.cabH / 2.0 == g.botBar + g.ledH
  {
    WholeGrid(p, kw, kh);
    CellsFill(Projector.ProjectToP(p), kw, kh);
  }

  /** On a whole number of tiles, the geometry holds kw × kh cells that cover the LED face. */
  lemma WholeGrid(p: Types.Project, kw: int, kh: int)
    requires Projector.GridCurrent(p)
    requires p.led.tileWidthMm >= 1.0 && p.led.tileHeightMm >= 1.0 && kw >= 1 && kh >= 1
    requires p.led.widthMm == kw as real * p.led.tileWidthMm
    requires p.led.heightMm == kh as real * p.led.tileHeightMm
    ensures var g := Projector.ProjectToP(p);
      && g.cabCols == kw && g.cabRows == kh
      && kw as real * g.cabW == g.ledW && kh as real * g.cabH == g.ledH
  {
    var g := Projector.ProjectToP(p);
    ExactGrid(p, kw, kh);
    CellSize(p);
    WholeTiles(p.led.widthMm, p.led.tileWidthMm, kw, g.ledW, g.cabW);
    WholeTiles(p.led.heightMm, p.led.tileHeightMm, kh, g.ledH, g.cabH);
  }

  /** A cabinet cell in the geometry is one tile, in metres. */
  lemma CellSize(p: Types.Project)
    ensures var g := Projector.ProjectToP(p);
      g.cabW * 1000.0 == p.led.tileWidthMm && g.cabH * 1000.0 == p.led.tileHeightMm
  {
  }

  lemma ExactGrid(p: Types.Project, kw: int, kh: int)
    requires Projector.GridCurrent(p)
    requires p.led.tileWidthMm >= 1.0 && p.led.tileHeightMm >= 1.0 && kw >= 1 && kh >= 1
    requires p.led.widthMm == kw as real * p.led.tileWidthMm
    requires p.led.heightMm == kh as real * p.led.tileHeightMm
    ensures p.computed.cols == kw && p.computed.rows == kh
  {
    Compute.GridCountExact(p.led.widthMm, p.led.tileWidthMm, kw);
    Compute.GridCountExact(p.led.heightMm, p.led.tileHeightMm, kh);
  }

  lemma WholeTiles(mm: real, tileMm: real, k: int, m: real, tileM: real)
    requires mm == k as real * tileMm && m * 1000.0 == mm && tileM * 1000.0 == tileMm
    ensures k as real * tileM == m
  {
  }

  lemma CellsFill(g: Geometry, kw: int, kh: int)
    requires g.cabCols == kw && g.cabRows == kh
    requires kw as real * g.cabW == g.ledW && kh as real * g.cabH == g.ledH
    ensures var top := CabinetBox(g, g.cabCols - 1, g.cabRows - 1);
      && top.centre.x + g.cabW / 2.0 == g.ledW
      && top.centre.y + g.cabH / 2.0 == g.botBar + g.ledH
  {
  }
}
