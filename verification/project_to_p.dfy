/**
 * `projectToP`: the flat geometry record (the "P" object of the 3D viewer
 * and of the orthographic renderer) derived from a project, in metres.
 *
 * The depth axis z starts at the front face of the LED (z = 0) and grows
 * towards the back: LED back, the gap, the truss front, centre and back.
 */
module Projector {
  import opened Base
  import opened Types
  import Compute
  import TrussDb

  /**
   * The P record. Field names follow the viewer's keys in lower camel case
   * (`LED_W` is `ledW`, `Z_TF` is `zTf`, ...). All lengths are in metres.
   */
  datatype Geometry = Geometry(
    ledW: real,
    ledH: real,
    ledHActive: real,
    ledWActive: real,
    cabW: real,
    cabH: real,
    /** kept for older scene scripts: the tile width again */
    cab: real,
    cabD: real,
    cabRows: int,
    cabCols: int,
    deadRows: int,
    deadCols: int,
    botBar: real,
    legX: seq<real>,
    legH: real,
    legArm: real,
    qx: real,
    qxDepth: real,
    isFlat: bool,
    basePlateW: real,
    basePlateD: real,
    basePlateInset: real,
    chordR: real,
    diagR: real,
    zLedBack: real,
    zGap: real,
    zTf: real,
    zTc: real,
    zTb: real,
    qh: real,
    tubeR: real,
    tubeY: seq<real>
  )

  /** Front gap in metres: 21 cm for direct mounting without tubes, else 15 cm. */
  const GapDirectM: real := 0.21
  const GapTubesM: real := 0.15

  /** Millimetres to metres. */
  function ToMetres(mm: real): (m: real)
    ensures m * 1000.0 == mm
  {
    mm / 1000.0
  }

  /** Every entry of a millimetre list converted to metres, order kept. */
  function ToMetresAll(mm: seq<real>): (m: seq<real>)
    ensures |m| == |mm|
    ensures forall i :: 0 <= i < |m| ==> m[i] * 1000.0 == mm[i]
  {
    seq(|mm|, i requires 0 <= i < |mm| => ToMetres(mm[i]))
  }

  /** Truss extent along the depth axis: the flat truss lies with its width along z. */
  function TrussDepthM(s: StructureConfig): (d: real)
    ensures d * 1000.0 == if s.trussModel == FX30 then s.trussSectionMm else s.trussSectionDepthMm
  {
    if TrussDb.GetTrussSpec(s.trussModel).isFlat then ToMetres(s.trussSectionMm)
    else ToMetres(s.trussSectionDepthMm)
  }

  /**
   * The P record as `projectToP` assembles it. `ProjectToP` below is this
   * record with its contract; the lemmas after it prove that contract part
   * by part.
   */
  function Assemble(p: Project): Geometry
  {
    var led := p.led;
    var s := p.structure;
    var spec := TrussDb.GetTrussSpec(s.trussModel);
    var botBar := if s.bottomBar then ToMetres(s.bottomBarHeightMm) else 0.0;
    var legX := if s.legs.Some? then ToMetresAll(p.computed.legPositionsMm) else [];
    var qx := ToMetres(s.trussSectionMm);
    var trussDepth := TrussDepthM(s);
    var zLedBack := ToMetres(led.tileDepthMm);
    var zGap := if s.horizontalTubes.count == 0 then GapDirectM else GapTubesM;
    var zTf := zLedBack + zGap;
    var legH := if s.legs.Some? then ToMetres(s.legs.value.heightMm) else 0.0;
    var legArm := if s.legs.Some? then ToMetres(s.legs.value.armLengthMm) else 0.0;
    Geometry(
      ToMetres(led.widthMm), ToMetres(led.heightMm),
      ToMetres(led.activeHeightMm), ToMetres(led.activeWidthMm),
      ToMetres(led.tileWidthMm), ToMetres(led.tileHeightMm), ToMetres(led.tileWidthMm),
      ToMetres(led.tileDepthMm),
      p.computed.rows, p.computed.cols,
      led.deadRows, led.deadCols,
      botBar,
      legX,
      legH, legArm,
      qx, ToMetres(s.trussSectionDepthMm),
      spec.isFlat,
      ToMetres(spec.basePlateWidthMm), ToMetres(spec.basePlateDepthMm), ToMetres(spec.basePlateInsetMm),
      s.trussChordDiaMm / 2000.0, s.trussDiagDiaMm / 2000.0,
      zLedBack, zGap, zTf, zTf + trussDepth / 2.0, zTf + trussDepth,
      qx / 2.0,
      s.horizontalTubes.diameterMm / 2000.0,
      ToMetresAll(p.computed.tubePositionsMm)
    )
  }

  /** The LED face, cabinet grid and bottom bar fields of the assembled record. */
  lemma AssembleLed(p: Project)
    ensures var g := Assemble(p);
      g.ledW * 1000.0 == p.led.widthMm && g.ledH * 1000.0 == p.led.heightMm
    ensures var g := Assemble(p);
      g.cabRows == p.computed.rows && g.cabCols == p.computed.cols
    ensures var g := Assemble(p);
      g.ledWActive * 1000.0 == p.led.activeWidthMm && g.ledHActive * 1000.0 == p.led.activeHeightMm
    ensures var g := Assemble(p);
      g.cabW * 1000.0 == p.led.tileWidthMm && g.cabH * 1000.0 == p.led.tileHeightMm
    ensures var g := Assemble(p);
      g.cab == g.cabW && g.cabD * 1000.0 == p.led.tileDepthMm
    ensures var g := Assemble(p);
      g.deadRows == p.led.deadRows && g.deadCols == p.led.deadCols
    ensures var g := Assemble(p);
      g.botBar * 1000.0 == if p.structure.bottomBar then p.structure.bottomBarHeightMm else 0.0
  {
  }

  /** The leg and tube fields of the assembled record. */
  lemma AssembleLegs(p: Project)
    ensures var g := Assemble(p);
      p.structure.legs.None? ==> g.legX == [] && g.legH == 0.0 && g.legArm == 0.0
    ensures var g := Assemble(p);
      p.structure.legs.Some? ==>
      |g.legX| == |p.computed.legPositionsMm|
      && (forall i :: 0 <= i < |g.legX| ==> g.legX[i] * 1000.0 == p.computed.legPositionsMm[i])
    ensures var g := Assemble(p);
      |g.tubeY| == |p.computed.tubePositionsMm|
    ensures var g := Assemble(p);
      forall i :: 0 <= i < |g.tubeY| ==> g.tubeY[i] * 1000.0 == p.computed.tubePositionsMm[i]
    ensures var g := Assemble(p);
      p.structure.legs.Some? ==>
      g.legH * 1000.0 == p.structure.legs.value.heightMm && g.legArm * 1000.0 == p.structure.legs.value.armLengthMm
  {
  }

  /** The truss section, base plate and radius fields of the assembled record. */
  lemma AssembleTruss(p: Project)
    ensures var g := Assemble(p);
      g.isFlat <==> p.structure.trussModel == FX30
    ensures var g := Assemble(p);
      g.qx * 1000.0 == p.structure.trussSectionMm && g.qxDepth * 1000.0 == p.structure.trussSectionDepthMm
    ensures var g := Assemble(p);
      var spec := TrussDb.GetTrussSpec(p.structure.trussModel);
      && g.basePlateW * 1000.0 == spec.basePlateWidthMm && g.basePlateD * 1000.0 == spec.basePlateDepthMm
      && g.basePlateInset * 1000.0 == spec.basePlateInsetMm
    ensures var g := Assemble(p);
      g.chordR * 2000.0 == p.structure.trussChordDiaMm && g.diagR * 2000.0 == p.structure.trussDiagDiaMm
    ensures var g := Assemble(p);
      g.tubeR * 2000.0 == p.structure.horizontalTubes.diameterMm
    ensures var g := Assemble(p);
      g.qh * 2.0 == g.qx
  {
  }

  /** The depth planes of the assembled record. */
  lemma AssemblePlanes(p: Project)
    ensures var g := Assemble(p);
      g.zLedBack == g.cabD
    ensures var g := Assemble(p);
      g.zGap == if p.structure.horizontalTubes.count == 0 then 0.21 else 0.15
    ensures var g := Assemble(p);
      g.zTf == g.zLedBack + g.zGap
    ensures var g := Assemble(p);
      (g.zTb - g.zTf) * 1000.0
            == if p.structure.trussModel == FX30 then p.structure.trussSectionMm else p.structure.trussSectionDepthMm
    ensures var g := Assemble(p);
      g.zTc - g.zTf == g.zTb - g.zTc
  {
  }

  function ProjectToP(p: Project): (g: Geometry)
    ensures g.ledW * 1000.0 == p.led.widthMm && g.ledH * 1000.0 == p.led.heightMm
    ensures g.cabRows == p.computed.rows && g.cabCols == p.computed.cols
    ensures g.isFlat <==> p.structure.trussModel == FX30
    ensures p.structure.legs.None? ==> g.legX == [] && g.legH == 0.0 && g.legArm == 0.0
    ensures p.structure.legs.Some? ==>
      |g.legX| == |p.computed.legPositionsMm|
      && (forall i :: 0 <= i < |g.legX| ==> g.legX[i] * 1000.0 == p.computed.legPositionsMm[i])
    ensures |g.tubeY| == |p.computed.tubePositionsMm|
    ensures forall i :: 0 <= i < |g.tubeY| ==> g.tubeY[i] * 1000.0 == p.computed.tubePositionsMm[i]
    ensures g.ledWActive * 1000.0 == p.led.activeWidthMm && g.ledHActive * 1000.0 == p.led.activeHeightMm
    ensures g.cabW * 1000.0 == p.led.tileWidthMm && g.cabH * 1000.0 == p.led.tileHeightMm
    ensures g.cab == g.cabW && g.cabD * 1000.0 == p.led.tileDepthMm
    ensures g.deadRows == p.led.deadRows && g.deadCols == p.led.deadCols
    ensures g.botBar * 1000.0 == if p.structure.bottomBar then p.structure.bottomBarHeightMm else 0.0
    ensures p.structure.legs.Some? ==>
      g.legH * 1000.0 == p.structure.legs.value.heightMm && g.legArm * 1000.0 == p.structure.legs.value.armLengthMm
    ensures g.qx * 1000.0 == p.structure.trussSectionMm && g.qxDepth * 1000.0 == p.structure.trussSectionDepthMm
    ensures var spec := TrussDb.GetTrussSpec(p.structure.trussModel);
      && g.basePlateW * 1000.0 == spec.basePlateWidthMm && g.basePlateD * 1000.0 == spec.basePlateDepthMm
      && g.basePlateInset * 1000.0 == spec.basePlateInsetMm
    ensures g.chordR * 2000.0 == p.structure.trussChordDiaMm && g.diagR * 2000.0 == p.structure.trussDiagDiaMm
    ensures g.tubeR * 2000.0 == p.structure.horizontalTubes.diameterMm
    ensures g.zLedBack == g.cabD
    ensures g.zGap == if p.structure.horizontalTubes.count == 0 then 0.21 else 0.15
    ensures g.zTf == g.zLedBack + g.zGap
    ensures (g.zTb - g.zTf) * 1000.0
            == if p.structure.trussModel == FX30 then p.structure.trussSectionMm else p.structure.trussSectionDepthMm
    ensures g.zTc - g.zTf == g.zTb - g.zTc
    ensures g.qh * 2.0 == g.qx
  {
    AssembleLed(p);
    AssembleLegs(p);
    AssembleTruss(p);
    AssemblePlanes(p);
    Assemble(p)
  }

  /** The stored metrics are those of the stored configuration. */
  predicate Fresh(p: Project) {
    Compute.Computable(p.led, p.structure)
    && p.computed == Compute.ComputeValues(p.led, p.structure)
  }

  /** The stored tile grid is the engine's grid for the stored LED configuration. */
  predicate GridCurrent(p: Project) {
    var grid := Compute.Grid(p.led);
    p.computed.cols == grid.cols && p.computed.rows == grid.rows
    && p.computed.activeTiles == grid.activeTiles
  }

  /** Fresh metrics carry the engine's tile grid. */
  lemma FreshGrid(p: Project)
    requires Fresh(p)
    ensures GridCurrent(p)
  {
  }

  /**
   * The planes along z keep their order: LED back before the truss front,
   * and front, centre, back strictly increasing exactly when the truss has
   * positive depth.
   */
  lemma PlaneOrder(p: Project)
    ensures var g := ProjectToP(p);
      && g.zLedBack < g.zTf
      && (g.zTf < g.zTc < g.zTb <==> TrussDepthM(p.structure) > 0.0)
  {
  }

  /** The front view's height is the engine's total height, in metres. */
  lemma HeightMatchesCompute(p: Project)
    requires Fresh(p)
    ensures var g := ProjectToP(p);
      (g.botBar + g.ledH) * 1000.0 == p.computed.totalHeightMm
  {
    assert p.computed.totalHeightMm == Compute.BottomBarMm(p.structure) + p.led.heightMm;
  }

  /**
   * Depth to the end of the leg arm agrees with the engine's total depth
   * except in one case: a flat truss with a non-zero arm, where the engine
   * drops the arm but the geometry keeps it.
   */
  lemma DepthMatchesComputeIff(p: Project)
    requires Fresh(p)
    ensures var g := ProjectToP(p);
      var s := p.structure;
      (g.zTb + g.legArm) * 1000.0 == p.computed.totalDepthMm
      <==> !(s.trussModel == FX30 && s.legs.Some? && s.legs.value.armLengthMm != 0.0)
  {
    assert p.computed.totalDepthMm == Compute.TotalDepthMm(p.led, p.structure);
    DepthCore(p);
  }

  lemma DepthCore(p: Project)
    ensures var g := ProjectToP(p);
      var s := p.structure;
      (g.zTb + g.legArm) * 1000.0 == Compute.TotalDepthMm(p.led, s)
      <==> !(s.trussModel == FX30 && s.legs.Some? && s.legs.value.armLengthMm != 0.0)
  {
    var g := ProjectToP(p);
    var s := p.structure;
    var legArmMm := if s.legs.Some? then s.legs.value.armLengthMm else 0.0;
    assert g.zTb * 1000.0 == p.led.tileDepthMm + Compute.GapMm(s) + Compute.TrussDepthMm(s);
    assert g.legArm * 1000.0 == legArmMm;
    assert Compute.TotalDepthMm(p.led, s)
      == p.led.tileDepthMm + Compute.GapMm(s) + Compute.TrussDepthMm(s) + Compute.ArmInDepthMm(s);
  }

  /**
   * Legs reach the geometry only where the engine laid them out: one per
   * configured leg for a ground mount, none otherwise, each at the engine's
   * position in metres.
   */
  lemma LegsMatchCompute(p: Project)
    requires Fresh(p)
    ensures var g := ProjectToP(p);
      var s := p.structure;
      && (Compute.HasLegs(s) ==> |g.legX| == s.legs.value.count)
      && (!Compute.HasLegs(s) ==> g.legX == [])
      && (Compute.HasLegs(s) && s.legs.value.count >= 2 ==>
            g.legX[|g.legX| - 1] * 1000.0 == p.led.widthMm - s.legs.value.edgeOffsetMm)
  {
    var s := p.structure;
    assert p.computed.legPositionsMm == Compute.LegLayout(p.led, s).0;
    LegLayoutEnds(p.led, s);
  }

  lemma LegLayoutEnds(led: LedConfig, s: StructureConfig)
    requires Compute.Computable(led, s)
    ensures var pos := Compute.LegLayout(led, s).0;
      && (Compute.HasLegs(s) ==> |pos| == s.legs.value.count)
      && (!Compute.HasLegs(s) ==> pos == [])
      && (Compute.HasLegs(s) && s.legs.value.count >= 2 ==>
            pos[|pos| - 1] == led.widthMm - s.legs.value.edgeOffsetMm)
  {
    if Compute.HasLegs(s) && s.legs.value.count >= 2 {
      var legs := s.legs.value;
      var n := legs.count;
      var sp := Compute.LegSpacing(led.widthMm, legs);
      assert sp * (n - 1) as real == led.widthMm - 2.0 * legs.edgeOffsetMm;
      assert Compute.LegLayout(led, s).0[n - 1] == legs.edgeOffsetMm + (n - 1) as real * sp;
    }
  }

  /**
   * A leg configuration kept on a mount without ground legs still sets the
   * leg height and arm, although no leg is placed.
   */
  lemma OrphanLegConfig(p: Project)
    requires Fresh(p) && p.structure.legs.Some? && p.structure.mountType != Ground
    ensures var g := ProjectToP(p);
      g.legX == [] && g.legH * 1000.0 == p.structure.legs.value.heightMm
  {
    assert p.computed.legPositionsMm == Compute.LegLayout(p.led, p.structure).0;
  }
}
