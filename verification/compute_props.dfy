/**
 * Properties of the metrics engine: leg and tube layout, weights, depth,
 * resolution, power and network, and the worked scenarios.
 */
module ComputeProps {
  import opened Base
  import opened Types
  import opened Compute
  import PitchDb
  import ControllerDb
  import TrussDb

  /** Evenly spaced positions: the step between neighbours is constant. */
  lemma {:induction false} LegPositionsEvenlySpaced(edge: real, spacing: real, n: int, i: int)
    requires 0 <= i < n - 1
    ensures LegPositions(edge, spacing, n)[i + 1] - LegPositions(edge, spacing, n)[i] == spacing
  {
    var r := LegPositions(edge, spacing, n);
    assert r[i + 1] == edge + (i + 1) as real * spacing;
    assert r[i] == edge + i as real * spacing;
    assert (i + 1) as real * spacing == i as real * spacing + spacing;
  }

  /**
   * The leg layout on its own: one position per leg, the first at the edge
   * offset, neighbours one spacing apart, the last at `width - edgeOffset`.
   */
  lemma LegLayoutCore(led: LedConfig, s: StructureConfig)
    requires Computable(led, s) && HasLegs(s)
    ensures var legs := s.legs.value;
      var r := LegLayout(led, s);
      && |r.0| == legs.count
      && r.0[0] == legs.edgeOffsetMm
      && (forall i :: 0 <= i < legs.count - 1 ==> r.0[i + 1] - r.0[i] == r.1)
      && (legs.count > 1 ==>
            && r.1 == (led.widthMm - 2.0 * legs.edgeOffsetMm) / (legs.count - 1) as real
            && r.0[legs.count - 1] == led.widthMm - legs.edgeOffsetMm)
      && (legs.count == 1 ==> r.1 == 0.0)
  {
    var legs := s.legs.value;
    var n := legs.count;
    var r := LegLayout(led, s);
    var sp := r.1;
    forall i | 0 <= i < n - 1
      ensures r.0[i + 1] - r.0[i] == sp
    {
      LegPositionsEvenlySpaced(legs.edgeOffsetMm, sp, n, i);
    }
    if n > 1 {
      var span := led.widthMm - 2.0 * legs.edgeOffsetMm;
      assert sp == span / (n - 1) as real;
      assert (n - 1) as real * sp == span;
      assert r.0[n - 1] == legs.edgeOffsetMm + (n - 1) as real * sp;
    }
  }

  /**
   * With legs, there is one position per leg, the first at the edge offset,
   * neighbours one spacing apart, and for two or more legs the spacing
   * splits the span between the offsets so the last leg sits at
   * `width - edgeOffset`. Without legs nothing is laid out and the
   * structure weighs nothing.
   */
  lemma LegLayoutShape(led: LedConfig, s: StructureConfig)
    requires Computable(led, s)
    ensures var c := ComputeValues(led, s);
      HasLegs(s) ==>
        var legs := s.legs.value;
        && |c.legPositionsMm| == legs.count
        && c.legPositionsMm[0] == legs.edgeOffsetMm
        && (forall i :: 0 <= i < legs.count - 1 ==>
              c.legPositionsMm[i + 1] - c.legPositionsMm[i] == c.legSpacingMm)
        && (legs.count > 1 ==>
              && c.legSpacingMm == (led.widthMm - 2.0 * legs.edgeOffsetMm) / (legs.count - 1) as real
              && c.legPositionsMm[legs.count - 1] == led.widthMm - legs.edgeOffsetMm)
        && (legs.count == 1 ==> c.legSpacingMm == 0.0)
    ensures var c := ComputeValues(led, s);
      !HasLegs(s) ==> c.legPositionsMm == [] && c.legSpacingMm == 0.0 && c.structureWeightKg == 0.0
  {
    var c := ComputeValues(led, s);
    assert c.legPositionsMm == LegLayout(led, s).0 && c.legSpacingMm == LegLayout(led, s).1;
    if HasLegs(s) {
      LegLayoutCore(led, s);
    }
  }

  /**
   * For two or more legs, positions strictly increase exactly when the
   * panel is wider than twice the edge offset.
   */
  lemma LegsIncreasingIff(led: LedConfig, s: StructureConfig)
    requires Computable(led, s) && HasLegs(s) && s.legs.value.count >= 2
    ensures StrictlyIncreasing(ComputeValues(led, s).legPositionsMm)
            <==> led.widthMm > 2.0 * s.legs.value.edgeOffsetMm
  {
    assert ComputeValues(led, s).legPositionsMm == LegLayout(led, s).0;
    LegsIncreasingCore(led, s);
  }

  lemma LegsIncreasingCore(led: LedConfig, s: StructureConfig)
    requires Computable(led, s) && HasLegs(s) && s.legs.value.count >= 2
    ensures StrictlyIncreasing(LegLayout(led, s).0) <==> led.widthMm > 2.0 * s.legs.value.edgeOffsetMm
  {
    var legs := s.legs.value;
    var n := legs.count;
    var sp := LegSpacing(led.widthMm, legs);
    var span := led.widthMm - 2.0 * legs.edgeOffsetMm;
    assert LegLayout(led, s).0 == LegPositions(legs.edgeOffsetMm, sp, n);
    assert sp == span / (n - 1) as real;
    assert sp > 0.0 <==> span > 0.0;
    LegPositionsIncreasingIff(legs.edgeOffsetMm, sp, n);
  }

  /** Two or more equally spaced legs increase exactly when the spacing is positive. */
  lemma {:induction false} LegPositionsIncreasingIff(edge: real, sp: real, n: int)
    requires n >= 2
    ensures StrictlyIncreasing(LegPositions(edge, sp, n)) <==> sp > 0.0
  {
    var p := LegPositions(edge, sp, n);
    if StrictlyIncreasing(p) {
      assert p[0] < p[1];
      assert p[1] - p[0] == sp;
    }
    if sp > 0.0 {
      forall i, j | 0 <= i < j < |p| ensures p[i] < p[j] {
        LegGap(edge, sp, n, i, j);
      }
    }
  }

  /** Legs further along stand further right when the spacing is positive. */
  lemma LegGap(edge: real, sp: real, n: int, i: int, j: int)
    requires 0 <= i < j < n && sp > 0.0
    ensures LegPositions(edge, sp, n)[i] < LegPositions(edge, sp, n)[j]
  {
    var p := LegPositions(edge, sp, n);
    assert p[j] - p[i] == (j - i) as real * sp;
    assert (j - i) as real * sp > 0.0;
  }

  /**
   * The structure weight in terms of the inputs alone: truss length of
   * every leg (arm only for deep trusses) times its linear mass, tubes over
   * the span between the outer legs at 1.5 kg/m, two 0.5 kg clamps per leg
   * and tube, and 20 kg of rigging.
   */
  lemma StructureWeightFromInputs(led: LedConfig, s: StructureConfig)
    requires Computable(led, s) && HasLegs(s)
    ensures var legs := s.legs.value;
      var spec := TrussDb.GetTrussSpec(s.trussModel);
      var t := s.horizontalTubes.count as real;
      var spanMm := if legs.count > 1 then led.widthMm - 2.0 * legs.edgeOffsetMm else 0.0;
      ComputeValues(led, s).structureWeightKg
        == legs.count as real * ((legs.heightMm + (if spec.isFlat then 0.0 else legs.armLengthMm)) / 1000.0) * spec.weightKgM
           + t * (spanMm / 1000.0) * 1.5
           + legs.count as real * t * 2.0 * 0.5
           + 20.0
  {
    assert ComputeValues(led, s).structureWeightKg == StructureWeight(s, LegLayout(led, s).0);
    StructureWeightCore(led, s);
  }

  lemma StructureWeightCore(led: LedConfig, s: StructureConfig)
    requires Computable(led, s) && HasLegs(s)
    ensures var legs := s.legs.value;
      var spec := TrussDb.GetTrussSpec(s.trussModel);
      var t := s.horizontalTubes.count as real;
      var spanMm := if legs.count > 1 then led.widthMm - 2.0 * legs.edgeOffsetMm else 0.0;
      StructureWeight(s, LegLayout(led, s).0)
        == legs.count as real * ((legs.heightMm + (if spec.isFlat then 0.0 else legs.armLengthMm)) / 1000.0) * spec.weightKgM
           + t * (spanMm / 1000.0) * 1.5
           + legs.count as real * t * 2.0 * 0.5
           + 20.0
  {
    LegLayoutCore(led, s);
    var p := LegLayout(led, s).0;
    var legs := s.legs.value;
    var spanMm := if legs.count > 1 then led.widthMm - 2.0 * legs.edgeOffsetMm else 0.0;
    assert p[|p| - 1] - p[0] == spanMm;
  }

  lemma {:induction false} TubePositionsIncreasing(base: real, step: real, n: int)
    requires step > 0.0
    ensures StrictlyIncreasing(TubePositions(base, step, n))
  {
    var t := TubePositions(base, step, n);
    forall i, j | 0 <= i < j < |t| ensures t[i] < t[j] {
      assert t[j] - t[i] == step * (j - i) as real;
      assert step * (j - i) as real > 0.0;
    }
  }

  lemma {:induction false} TubePositionsInside(base: real, step: real, n: int, i: int)
    requires step > 0.0 && 0 <= i < n
    ensures base < TubePositions(base, step, n)[i] < base + step * (n + 1) as real
  {
    var t := TubePositions(base, step, n);
    assert t[i] == base + step * (i + 1) as real;
    assert step * (i + 1) as real < step * (n + 1) as real;
  }

  /**
   * The tube layout on its own: one position per configured tube, equally
   * spaced with one more gap than tubes; strictly increasing and strictly
   * inside the LED face for a positive LED height; none for a
   * non-positive count.
   */
  lemma TubeLayoutCore(led: LedConfig, s: StructureConfig)
    ensures var t := TubeLayout(led, s);
      var n := s.horizontalTubes.count;
      var base := BottomBarMm(s);
      && (n <= 0 ==> t == [])
      && (n > 0 ==> (|t| == n
            && forall i :: 0 <= i < n ==> t[i] == base + (i + 1) as real * (led.heightMm / (n + 1) as real)))
      && (n > 0 && led.heightMm > 0.0 ==>
            && StrictlyIncreasing(t)
            && forall i :: 0 <= i < n ==> base < t[i] < base + led.heightMm)
  {
    var n := s.horizontalTubes.count;
    if n > 0 {
      var base := BottomBarMm(s);
      var step := led.heightMm / (n + 1) as real;
      var t := TubeLayout(led, s);
      assert t == TubePositions(base, step, n);
      if led.heightMm > 0.0 {
        TubesInsideFace(base, led.heightMm, n);
      }
    }
  }

  /** n tubes spread over a face of positive height h increase and stay strictly inside it. */
  lemma TubesInsideFace(base: real, h: real, n: int)
    requires n > 0 && h > 0.0
    ensures var t := TubePositions(base, h / (n + 1) as real, n);
      && StrictlyIncreasing(t)
      && forall i :: 0 <= i < n ==> base < t[i] < base + h
  {
    var step := h / (n + 1) as real;
    var t := TubePositions(base, step, n);
    assert step > 0.0;
    assert step * (n + 1) as real == h;
    TubePositionsIncreasing(base, step, n);
    forall i | 0 <= i < n ensures base < t[i] < base + h {
      TubePositionsInside(base, step, n, i);
    }
  }

  /** The engine's tube positions are that layout. */
  lemma TubeLayoutShape(led: LedConfig, s: StructureConfig)
    requires Computable(led, s)
    ensures var t := ComputeValues(led, s).tubePositionsMm;
      var n := s.horizontalTubes.count;
      var base := BottomBarMm(s);
      && (n <= 0 ==> t == [])
      && (n > 0 ==> (|t| == n
            && forall i :: 0 <= i < n ==> t[i] == base + (i + 1) as real * (led.heightMm / (n + 1) as real)))
      && (n > 0 && led.heightMm > 0.0 ==>
            && StrictlyIncreasing(t)
            && forall i :: 0 <= i < n ==> base < t[i] < base + led.heightMm)
  {
    assert ComputeValues(led, s).tubePositionsMm == TubeLayout(led, s);
    TubeLayoutCore(led, s);
  }

  /** The total height is the LED height on top of the bottom bar, if any. */
  lemma HeightStack(led: LedConfig, s: StructureConfig)
    requires Computable(led, s)
    ensures ComputeValues(led, s).totalHeightMm
            == led.heightMm + (if s.bottomBar then s.bottomBarHeightMm else 0.0)
  {
  }

  /**
   * The depth: LED tile depth, then the 210 mm direct-mount gap without
   * tubes or the 150 mm gap with them, then the truss (its width for a flat
   * truss, its depth otherwise), then the arm, which counts only for a deep
   * truss.
   */
  lemma DepthStack(led: LedConfig, s: StructureConfig)
    requires Computable(led, s)
    ensures var flat := TrussDb.GetTrussSpec(s.trussModel).isFlat;
      ComputeValues(led, s).totalDepthMm
        == led.tileDepthMm
           + (if s.horizontalTubes.count == 0 then 210.0 else 150.0)
           + (if flat then s.trussSectionMm else s.trussSectionDepthMm)
           + (if flat || s.legs.None? then 0.0 else s.legs.value.armLengthMm)
  {
  }

  /** Dropping all tubes for direct mounting adds exactly 60 mm of depth. */
  lemma DirectMountIsDeeper(led: LedConfig, s: StructureConfig)
    requires Computable(led, s) && s.horizontalTubes.count != 0
    ensures var s0 := s.(horizontalTubes := s.horizontalTubes.(count := 0));
      ComputeValues(led, s0).totalDepthMm == ComputeValues(led, s).totalDepthMm + 60.0
  {
  }

  /** With a flat truss the arm length affects neither depth nor weight. */
  lemma FlatTrussIgnoresArm(led: LedConfig, s: StructureConfig, arm: real)
    requires Computable(led, s) && s.trussModel == FX30 && s.legs.Some?
    ensures var s' := s.(legs := Some(s.legs.value.(armLengthMm := arm)));
      && ComputeValues(led, s').totalDepthMm == ComputeValues(led, s).totalDepthMm
      && ComputeValues(led, s').structureWeightKg == ComputeValues(led, s).structureWeightKg
  {
    var s' := s.(legs := Some(s.legs.value.(armLengthMm := arm)));
    assert TotalDepthMm(led, s') == TotalDepthMm(led, s);
    assert LegLayout(led, s') == LegLayout(led, s);
    assert StructureWeight(s', LegLayout(led, s').0) == StructureWeight(s, LegLayout(led, s).0);
  }

  /**
   * Resolution follows the active size: changing the number of dead rows
   * changes neither the resolution, nor the pixel count, nor the ports, nor
   * the power lines.
   */
  lemma ResolutionIgnoresDeadRows(led: LedConfig, s: StructureConfig, dead: int)
    requires Computable(led, s)
    ensures var a := ComputeValues(led, s);
      var b := ComputeValues(led.(deadRows := dead), s);
      && a.resolutionXPx == b.resolutionXPx
      && a.resolutionYPx == b.resolutionYPx
      && a.totalPixels == b.totalPixels
      && a.networkSchema == b.networkSchema
      && a.powerSchema == b.powerSchema
  {
    var led' := led.(deadRows := dead);
    assert ResolutionX(led') == ResolutionX(led);
    assert ResolutionY(led') == ResolutionY(led);
    assert Grid(led').totalTiles == Grid(led).totalTiles;
  }

  /** Horizontal and vertical resolution from the active size and the pitch. */
  lemma ResolutionFromActiveSize(led: LedConfig, s: StructureConfig)
    requires Computable(led, s) && led.tileWidthMm >= 1.0 && led.tileHeightMm >= 1.0
    requires led.activeWidthMm >= 0.0 && led.activeHeightMm >= 0.0
    ensures var c := ComputeValues(led, s);
      var ppx := PitchDb.GetPixelsPer500mm(led.tilePitchMm) as real;
      && c.resolutionXPx == Round(led.activeWidthMm / led.tileWidthMm * ppx)
      && c.resolutionYPx == Round(led.activeHeightMm / led.tileHeightMm * ppx
                                  * (if led.tileHeightMm == 1000.0 then 2.0 else 1.0))
      && c.totalPixels == c.resolutionXPx * c.resolutionYPx
  {
    var c := ComputeValues(led, s);
    assert c.resolutionXPx == ResolutionX(led) && c.resolutionYPx == ResolutionY(led);
    ResolutionXCore(led);
    ResolutionYCore(led);
  }

  lemma ResolutionXCore(led: LedConfig)
    requires led.tilePitchMm != 0.0 && led.tileWidthMm >= 1.0 && led.activeWidthMm >= 0.0
    ensures ResolutionX(led)
            == Round(led.activeWidthMm / led.tileWidthMm * PitchDb.GetPixelsPer500mm(led.tilePitchMm) as real)
  {
    assert ActiveTilesX(led) == led.activeWidthMm / led.tileWidthMm;
  }

  lemma ResolutionYCore(led: LedConfig)
    requires led.tilePitchMm != 0.0 && led.tileHeightMm >= 1.0 && led.activeHeightMm >= 0.0
    ensures ResolutionY(led)
            == Round(led.activeHeightMm / led.tileHeightMm * PitchDb.GetPixelsPer500mm(led.tilePitchMm) as real
                     * (if led.tileHeightMm == 1000.0 then 2.0 else 1.0))
  {
    var ppx := PitchDb.GetPixelsPer500mm(led.tilePitchMm);
    var f := if led.tileHeightMm == 1000.0 then 2 else 1;
    var k := led.activeHeightMm / led.tileHeightMm;
    assert ActiveTilesY(led) == k;
    assert PixelsPerTileH(led) == ppx * f;
    assert (ppx * f) as real == ppx as real * f as real;
    assert k * (ppx * f) as real == k * ppx as real * f as real;
  }

  lemma {:induction false} ScaledRoundMonotone(k: real, a: int, b: int)
    requires k >= 0.0 && a <= b
    ensures TilesToPixels(k, a) <= TilesToPixels(k, b)
  {
    assert k * a as real <= k * b as real by {
      assert k * (b - a) as real >= 0.0;
    }
    RoundMonotone(k * a as real, k * b as real);
  }

  /**
   * Within the pitch catalogue, and within the fallback formula, a coarser
   * pitch never has more pixels per 500 mm.
   */
  lemma PixelsMonotoneInPitch(p: real, q: real)
    requires 0.0 < p <= q
    requires (p in PitchDb.Table && q in PitchDb.Table) || (p !in PitchDb.Table && q !in PitchDb.Table)
    ensures PitchDb.GetPixelsPer500mm(q) <= PitchDb.GetPixelsPer500mm(p)
  {
    if p in PitchDb.Table {
      PitchDb.PitchesAreTheKeys(p);
      PitchDb.PitchesAreTheKeys(q);
      var i :| 0 <= i < |PitchDb.Pitches| && PitchDb.Pitches[i] == p;
      var j :| 0 <= j < |PitchDb.Pitches| && PitchDb.Pitches[j] == q;
      if i < j {
        PitchDb.TableStrictlyDecreasing(i, j);
      } else if j < i {
        PitchDb.TableStrictlyDecreasing(j, i);
      }
    } else {
      PitchDb.FallbackNonIncreasing(p, q);
    }
  }

  /**
   * Within each pitch regime, a coarser pitch never increases the
   * horizontal or the vertical resolution.
   */
  lemma ResolutionMonotoneInPitch(led: LedConfig, q: real)
    requires 0.0 < led.tilePitchMm <= q
    requires (led.tilePitchMm in PitchDb.Table && q in PitchDb.Table)
             || (led.tilePitchMm !in PitchDb.Table && q !in PitchDb.Table)
    ensures ResolutionX(led.(tilePitchMm := q)) <= ResolutionX(led)
    ensures ResolutionY(led.(tilePitchMm := q)) <= ResolutionY(led)
  {
    PixelsMonotoneInPitch(led.tilePitchMm, q);
    ResolutionXMonotone(led, q);
    ResolutionYMonotone(led, q);
  }

  lemma ResolutionXMonotone(led: LedConfig, q: real)
    requires led.tilePitchMm != 0.0 && q != 0.0
    requires PitchDb.GetPixelsPer500mm(q) <= PitchDb.GetPixelsPer500mm(led.tilePitchMm)
    ensures ResolutionX(led.(tilePitchMm := q)) <= ResolutionX(led)
  {
    var led' := led.(tilePitchMm := q);
    assert ActiveTilesX(led') == ActiveTilesX(led);
    ScaledRoundMonotone(ActiveTilesX(led), PitchDb.GetPixelsPer500mm(q), PitchDb.GetPixelsPer500mm(led.tilePitchMm));

  }

  lemma ResolutionYMonotone(led: LedConfig, q: real)
    requires led.tilePitchMm != 0.0 && q != 0.0
    requires PitchDb.GetPixelsPer500mm(q) <= PitchDb.GetPixelsPer500mm(led.tilePitchMm)
    ensures ResolutionY(led.(tilePitchMm := q)) <= ResolutionY(led)
  {
    var led' := led.(tilePitchMm := q);
    assert ActiveTilesY(led') == ActiveTilesY(led);
    PixelsPerTileHMonotone(led, q);
    ScaledRoundMonotone(ActiveTilesY(led), PixelsPerTileH(led'), PixelsPerTileH(led));

  }

  lemma PixelsPerTileHMonotone(led: LedConfig, q: real)
    requires led.tilePitchMm != 0.0 && q != 0.0
    requires PitchDb.GetPixelsPer500mm(q) <= PitchDb.GetPixelsPer500mm(led.tilePitchMm)
    ensures PixelsPerTileH(led.(tilePitchMm := q)) <= PixelsPerTileH(led)
  {
  }

  /**
   * A compatible configuration never hits the port cap: the ports shown
   * carry every pixel.
   */
  lemma CompatibleNeverCapped(led: LedConfig, s: StructureConfig)
    requires Computable(led, s)
    ensures var n := ComputeValues(led, s).networkSchema;
      n.controllerCompatibile ==>
        n.porteEthernetUsate * n.pixelPerPorta >= ComputeValues(led, s).totalPixels
  {
    var c := ComputeValues(led, s);
    var spec := ControllerDb.GetControllerSpec(led.controller);
    var px := c.totalPixels;
    var n := c.networkSchema;
    if n.controllerCompatibile {
      ControllerDb.PortsCoverCapacity(led.controller);
      var needed := Ceil(px as real / spec.pixelsPerPort as real);
      assert px as real / spec.pixelsPerPort as real <= spec.ethernetPorts as real by {
        assert px as real <= spec.ethernetPorts as real * spec.pixelsPerPort as real;
      }
      CeilLeast(px as real / spec.pixelsPerPort as real, spec.ethernetPorts);
      assert n.porteEthernetUsate == needed;
      assert needed as real * spec.pixelsPerPort as real >= px as real;
    }
  }

  /**
   * Compatibility is reported on its own: an MCTRL4K driving 9 M pixels
   * needs only 14 of its 16 ports yet is over its pixel capacity.
   */
  lemma PortSufficientYetOverloaded()
    ensures var n := Network(9000000, MCTR4K);
      && !n.controllerCompatibile
      && n.porteEthernetUsate == 14 < n.porteEthernetTotali
  {
    assert 9000000.0 / 650000.0 == 180.0 / 13.0;
    assert Ceil(180.0 / 13.0) == 14;
  }

  /** A VX1000 beyond 6.5 M pixels is incompatible and shows all 10 ports in use. */
  lemma VX1000Overloaded(px: int)
    requires px > 6500000
    ensures var n := Network(px, VX1000);
      !n.controllerCompatibile && n.porteEthernetUsate == 10
  {
    var needed := Ceil(px as real / 650000.0);
    assert px as real / 650000.0 > 10.0;
  }

  /** A 5000 x 2000 mm wall of 500 mm tiles at 2.6 mm pitch with one dead row. */
  lemma ScenarioA(led: LedConfig, s: StructureConfig)
    requires Computable(led, s)
    requires led.widthMm == 5000.0 && led.heightMm == 2000.0
    requires led.activeWidthMm == 5000.0 && led.activeHeightMm == 1500.0
    requires led.tileWidthMm == 500.0 && led.tileHeightMm == 500.0
    requires led.tilePitchMm == 2.6 && led.deadRows == 1
    ensures var c := ComputeValues(led, s);
      && c.cols == 10 && c.rows == 4 && c.totalTiles == 40 && c.activeTiles == 30
      && c.resolutionXPx == 1920 && c.resolutionYPx == 576
      && c.powerSchema.maxCabinetPerLinea == 16 && c.powerSchema.linee16A == 3
  {
    GridCountExact(5000.0, 500.0, 10);
    GridCountExact(2000.0, 500.0, 4);
    RoundOfInt(1920);
    RoundOfInt(576);
    var p := PowerLines(40, 500.0);
    assert Ceil(6000.0 / WattPerLine) == 2;
    assert Ceil(40.0 / 16.0) == 3;
  }

  /** Four legs on a 5000 mm wall with a 500 mm edge offset. */
  lemma ScenarioB(led: LedConfig, s: StructureConfig)
    requires Computable(led, s) && HasLegs(s)
    requires led.widthMm == 5000.0
    requires s.legs.value.count == 4 && s.legs.value.edgeOffsetMm == 500.0
    ensures var c := ComputeValues(led, s);
      && c.legPositionsMm == [500.0, 5500.0 / 3.0, 9500.0 / 3.0, 4500.0]
      && c.legSpacingMm == 4000.0 / 3.0
  {
    var c := ComputeValues(led, s);
    assert c.legSpacingMm == 4000.0 / 3.0;
    assert |c.legPositionsMm| == 4;
  }

  /** A deep truss without tubes uses the 210 mm gap. */
  lemma ScenarioC(led: LedConfig, s: StructureConfig)
    requires Computable(led, s) && s.trussModel == QX30 && s.horizontalTubes.count == 0
    ensures ComputeValues(led, s).totalDepthMm
            == led.tileDepthMm + 210.0 + s.trussSectionDepthMm
               + (if s.legs.Some? then s.legs.value.armLengthMm else 0.0)
  {
  }
}
