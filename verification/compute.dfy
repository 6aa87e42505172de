/**
 * The metrics engine: from the LED and structure configuration to the tile
 * grid, weights, leg and tube layout, overall size, power lines and network
 * ports shown everywhere else in the tool.
 */
module Compute {
  import opened Base
  import opened Types
  import PitchDb
  import ControllerDb
  import TrussDb

  /** Usable watts on one 16 A line: 230 V x 16 A x 0.85. */
  const WattPerLine: real := 230.0 * 16.0 * 0.85
  const WattPerTile: int := 150
  const TubeKgPerM: real := 1.5
  const ClampKg: real := 0.5
  const RiggingKg: real := 20.0
  /** Front gap between LED back and truss: direct mount without tubes, with tubes. */
  const GapDirectMm: real := 210.0
  const GapTubesMm: real := 150.0

  lemma WattPerLineIs3128()
    ensures WattPerLine == 3128.0
  {
  }

  /** Legs are laid out only for a ground mount that has a leg configuration. */
  predicate HasLegs(s: StructureConfig) {
    s.legs.Some? && s.mountType == Ground
  }

  /**
   * What the engine needs from its caller: a non-zero pitch (the fallback
   * divides by it) and at least one leg when legs are laid out (with none,
   * the tube span reads a missing first and last position).
   */
  predicate Computable(led: LedConfig, s: StructureConfig) {
    led.tilePitchMm != 0.0 && (HasLegs(s) ==> s.legs.value.count >= 1)
  }

  /** Tile dimension guarded against division by zero. */
  function SafeTile(t: real): (r: real)
    ensures r >= 1.0
    ensures t >= 1.0 ==> r == t
  {
    MaxR(1.0, t)
  }

  /** Number of tiles along one side: never zero, and exact on whole multiples. */
  function GridCount(physicalMm: real, tileMm: real): (n: int)
    requires tileMm >= 1.0
    ensures n >= 1
    ensures n as real - 0.5 <= MaxR(physicalMm, tileMm) / tileMm < n as real + 0.5
  {
    var q := MaxR(physicalMm, tileMm) / tileMm;
    assert q >= 1.0 by {
      assert q * tileMm == MaxR(physicalMm, tileMm);
    }
    Round(q)
  }

  /** The tile count is the one whole number within half a tile of the exact ratio. */
  lemma GridCountNearest(physicalMm: real, tileMm: real, k: int)
    requires tileMm >= 1.0
    requires k as real - 0.5 <= MaxR(physicalMm, tileMm) / tileMm < k as real + 0.5
    ensures GridCount(physicalMm, tileMm) == k
  {
    var n := GridCount(physicalMm, tileMm);
    assert n as real - 0.5 < k as real + 0.5 && k as real - 0.5 < n as real + 0.5;
  }

  /** A side that is a whole multiple of the tile gets exactly that many tiles. */
  lemma GridCountExact(physicalMm: real, tileMm: real, k: int)
    requires tileMm >= 1.0 && k >= 1 && physicalMm == k as real * tileMm
    ensures GridCount(physicalMm, tileMm) == k
  {
    assert MaxR(physicalMm, tileMm) == physicalMm;
    assert physicalMm / tileMm == k as real;
    RoundOfInt(k);
  }

  /** Tile footprint and mass of each catalogue tile size. */
  function GetTileDimensions(size: TileSize): (r: (real, real, real))
    ensures size == Tile500x500 ==> r == (500.0, 500.0, 7.5)
    ensures size == Tile500x1000 ==> r == (500.0, 1000.0, 14.0)
  {
    if size == Tile500x500 then (500.0, 500.0, 7.5) else (500.0, 1000.0, 14.0)
  }

  datatype TileGrid = TileGrid(cols: int, rows: int, totalTiles: int, activeTiles: int)

  /** Tile grid over the physical size; the dead rows are the only inactive ones. */
  function Grid(led: LedConfig): (g: TileGrid)
    ensures g.cols >= 1 && g.rows >= 1
    ensures g.totalTiles == g.cols * g.rows
    ensures g.activeTiles == g.cols * MaxI(0, g.rows - led.deadRows)
    ensures 0 <= g.activeTiles
    ensures led.deadRows >= 0 ==> g.activeTiles <= g.totalTiles
  {
    var cols := GridCount(led.widthMm, SafeTile(led.tileWidthMm));
    var rows := GridCount(led.heightMm, SafeTile(led.tileHeightMm));
    var activeRows := MaxI(0, rows - led.deadRows);
    MulMonotone(cols, activeRows, if led.deadRows >= 0 then rows else activeRows);
    TileGrid(cols, rows, cols * rows, cols * activeRows)
  }

  /** Distance between neighbouring legs; zero for a single leg. */
  function LegSpacing(widthMm: real, legs: LegConfig): (sp: real)
    ensures legs.count > 1 ==> 2.0 * legs.edgeOffsetMm + sp * (legs.count - 1) as real == widthMm
    ensures legs.count <= 1 ==> sp == 0.0
  {
    if legs.count > 1 then (widthMm - 2.0 * legs.edgeOffsetMm) / (legs.count - 1) as real else 0.0
  }

  /** The `push` loop over `i = 0 .. n-1` of `edge + i * spacing`. */
  function LegPositions(edgeMm: real, spacingMm: real, n: int): (r: seq<real>)
    ensures |r| == MaxI(0, n)
    ensures forall i :: 0 <= i < |r| ==> r[i] == edgeMm + i as real * spacingMm
    decreases n
  {
    if n <= 0 then [] else LegPositions(edgeMm, spacingMm, n - 1) + [edgeMm + (n - 1) as real * spacingMm]
  }

  /** The `push` loop over `i = 1 .. n` of `base + i * step`. */
  function TubePositions(baseMm: real, stepMm: real, n: int): (r: seq<real>)
    ensures |r| == MaxI(0, n)
    ensures forall i :: 0 <= i < |r| ==> r[i] == baseMm + stepMm * (i + 1) as real
    decreases n
  {
    if n <= 0 then [] else TubePositions(baseMm, stepMm, n - 1) + [baseMm + stepMm * n as real]
  }

  function BottomBarMm(s: StructureConfig): real {
    if s.bottomBar then s.bottomBarHeightMm else 0.0
  }

  /** Evenly spaced tubes above the bottom bar over the LED height. */
  function TubeLayout(led: LedConfig, s: StructureConfig): (r: seq<real>)
    ensures |r| == MaxI(0, s.horizontalTubes.count)
    ensures forall i :: 0 <= i < |r| ==>
      r[i] == BottomBarMm(s) + led.heightMm / (s.horizontalTubes.count + 1) as real * (i + 1) as real
  {
    var n := s.horizontalTubes.count;
    if n > 0 then TubePositions(BottomBarMm(s), led.heightMm / (n + 1) as real, n) else []
  }

  /**
   * Leg truss mass + tube mass over the leg span + two clamps per leg and
   * tube + fixed rigging allowance; zero when there are no legs.
   */
  function StructureWeight(s: StructureConfig, positions: seq<real>): (kg: real)
    requires HasLegs(s) ==> |positions| >= 1
    ensures !HasLegs(s) ==> kg == 0.0
  {
    if HasLegs(s) then
      var legs := s.legs.value;
      var spec := TrussDb.GetTrussSpec(s.trussModel);
      var legLengthM := (legs.heightMm + (if spec.isFlat then 0.0 else legs.armLengthMm)) / 1000.0;
      var tubeSpanM := (positions[|positions| - 1] - positions[0]) / 1000.0;
      var tubes := s.horizontalTubes.count as real;
      legs.count as real * legLengthM * spec.weightKgM
      + tubes * tubeSpanM * TubeKgPerM
      + legs.count as real * tubes * 2.0 * ClampKg
      + RiggingKg
    else 0.0
  }

  /** Truss contribution to the depth: the flat truss lies with its width along depth. */
  function TrussDepthMm(s: StructureConfig): real {
    if TrussDb.GetTrussSpec(s.trussModel).isFlat then s.trussSectionMm else s.trussSectionDepthMm
  }

  function GapMm(s: StructureConfig): (g: real)
    ensures g > 0.0
    ensures g == GapDirectMm <==> s.horizontalTubes.count == 0
  {
    if s.horizontalTubes.count == 0 then GapDirectMm else GapTubesMm
  }

  /** Arm length counted in the depth: none for a flat truss or without legs. */
  function ArmInDepthMm(s: StructureConfig): (d: real)
    ensures d != 0.0 ==> !TrussDb.GetTrussSpec(s.trussModel).isFlat && s.legs.Some?
  {
    if TrussDb.GetTrussSpec(s.trussModel).isFlat then 0.0
    else if s.legs.Some? then s.legs.value.armLengthMm else 0.0
  }

  /** Cabinets one 16 A line can daisy-chain: 8 tall tiles or 16 square ones. */
  function MaxCabinetPerLine(tileHeightMm: real): int {
    if tileHeightMm == 1000.0 then 8 else 16
  }

  /**
   * The number of 16 A lines: the least count that both carries the wattage
   * and respects the cabinets-per-line limit.
   */
  function PowerLines(totalTiles: int, tileHeightMm: real): (p: PowerSchema)
    requires totalTiles >= 0
    ensures p.wattPerLinea == 3128
    ensures p.maxCabinetPerLinea == MaxCabinetPerLine(tileHeightMm)
    ensures p.linee16A as real * 3128.0 >= (WattPerTile * totalTiles) as real
    ensures p.linee16A * p.maxCabinetPerLinea >= totalTiles
  {
    var watts := WattPerTile * totalTiles;
    var byWatts := Ceil(watts as real / WattPerLine);
    var maxCab := MaxCabinetPerLine(tileHeightMm);
    var byCabinets := Ceil(totalTiles as real / maxCab as real);
    assert byWatts as real * 3128.0 >= watts as real;
    assert byCabinets * maxCab >= totalTiles by {
      assert byCabinets as real * maxCab as real >= totalTiles as real;
    }
    PowerSchema(MaxI(byWatts, byCabinets), maxCab, Round(WattPerLine))
  }

  /** No smaller line count carries both the wattage and the cabinets. */
  lemma PowerLinesLeast(totalTiles: int, tileHeightMm: real, k: int)
    requires totalTiles >= 0
    requires k as real * 3128.0 >= (WattPerTile * totalTiles) as real
    requires k * MaxCabinetPerLine(tileHeightMm) >= totalTiles
    ensures PowerLines(totalTiles, tileHeightMm).linee16A <= k
  {
    var maxCab := MaxCabinetPerLine(tileHeightMm);
    CeilLeast((WattPerTile * totalTiles) as real / WattPerLine, k);
    assert totalTiles as real / maxCab as real <= k as real;
    CeilLeast(totalTiles as real / maxCab as real, k);
  }

  /**
   * Ports needed for the pixels, capped at the controller's port count, and a
   * compatibility flag that depends on the pixel capacity alone.
   */
  function Network(totalPixels: int, model: ControllerModel): (n: NetworkSchema)
    ensures var spec := ControllerDb.GetControllerSpec(model);
      && n.porteEthernetTotali == spec.ethernetPorts
      && n.pixelPerPorta == spec.pixelsPerPort
      && n.porteEthernetUsate <= n.porteEthernetTotali
      && (n.controllerCompatibile <==> totalPixels <= spec.maxPixels)
    ensures n.porteEthernetUsate < n.porteEthernetTotali ==>
      n.porteEthernetUsate * n.pixelPerPorta >= totalPixels
      && (n.porteEthernetUsate - 1) * n.pixelPerPorta < totalPixels
    ensures n.porteEthernetUsate == n.porteEthernetTotali ==>
      (n.porteEthernetTotali - 1) * n.pixelPerPorta < totalPixels
  {
    var spec := ControllerDb.GetControllerSpec(model);
    var needed := Ceil(totalPixels as real / spec.pixelsPerPort as real);
    assert needed * spec.pixelsPerPort >= totalPixels by {
      assert needed as real * spec.pixelsPerPort as real >= totalPixels as real;
    }
    assert (needed - 1) * spec.pixelsPerPort < totalPixels by {
      assert (needed - 1) as real * spec.pixelsPerPort as real < totalPixels as real;
    }
    NetworkSchema(MinI(needed, spec.ethernetPorts), spec.ethernetPorts,
                  totalPixels <= spec.maxPixels, spec.pixelsPerPort)
  }

  /**
   * The ports shown are min(k, ports) for the port count k the pixels need,
   * the one k with (k - 1) ports too few and k ports enough.
   */
  lemma NetworkPortsExact(totalPixels: int, model: ControllerModel, k: int)
    requires var spec := ControllerDb.GetControllerSpec(model);
      k * spec.pixelsPerPort >= totalPixels && (k - 1) * spec.pixelsPerPort < totalPixels
    ensures Network(totalPixels, model).porteEthernetUsate
      == MinI(k, ControllerDb.GetControllerSpec(model).ethernetPorts)
  {
    var spec := ControllerDb.GetControllerSpec(model);
    var n := Network(totalPixels, model);
    if n.porteEthernetUsate < n.porteEthernetTotali {
      PortCountUnique(n.porteEthernetUsate, k, spec.pixelsPerPort, totalPixels);
    } else {
      PortCountAbove(n.porteEthernetTotali, k, spec.pixelsPerPort, totalPixels);
    }
  }

  /** Two port counts that are both just enough are equal. */
  lemma PortCountUnique(a: int, b: int, perPort: int, pixels: int)
    requires perPort > 0
    requires a * perPort >= pixels && (a - 1) * perPort < pixels
    requires b * perPort >= pixels && (b - 1) * perPort < pixels
    ensures a == b
  {
    if a < b {
      ScaleLe(perPort, a, b - 1);
    } else if b < a {
      ScaleLe(perPort, b, a - 1);
    }
  }

  /** A count that is enough cannot be below a count that is too few. */
  lemma PortCountAbove(m: int, k: int, perPort: int, pixels: int)
    requires perPort > 0
    requires (m - 1) * perPort < pixels && k * perPort >= pixels
    ensures k >= m
  {
    if k < m {
      ScaleLe(perPort, k, m - 1);
    }
  }

  lemma ScaleLe(p: int, x: int, y: int)
    requires p > 0 && x <= y
    ensures x * p <= y * p
  {
    assert y * p - x * p == (y - x) * p;
  }

  /** Vertical pixels per tile: doubled for 1000 mm tall tiles. */
  function PixelsPerTileH(led: LedConfig): int
    requires led.tilePitchMm != 0.0
  {
    var px := PitchDb.GetPixelsPer500mm(led.tilePitchMm);
    if led.tileHeightMm == 1000.0 then px * 2 else px
  }

  /** Active tiles across the width (fractional), never negative. */
  function ActiveTilesX(led: LedConfig): (k: real)
    ensures k >= 0.0
  {
    MaxR(0.0, led.activeWidthMm) / SafeTile(led.tileWidthMm)
  }

  /** Active tiles up the height (fractional), never negative. */
  function ActiveTilesY(led: LedConfig): (k: real)
    ensures k >= 0.0
  {
    MaxR(0.0, led.activeHeightMm) / SafeTile(led.tileHeightMm)
  }

  /** Pixels spanned by a (fractional) number of tiles, rounded as the UI does. */
  function TilesToPixels(tiles: real, perTile: int): int
  {
    Round(tiles * perTile as real)
  }

  function ResolutionX(led: LedConfig): int
    requires led.tilePitchMm != 0.0
  {
    TilesToPixels(ActiveTilesX(led), PitchDb.GetPixelsPer500mm(led.tilePitchMm))
  }

  function ResolutionY(led: LedConfig): int
    requires led.tilePitchMm != 0.0
  {
    TilesToPixels(ActiveTilesY(led), PixelsPerTileH(led))
  }

  /** Leg positions: laid out only when `HasLegs`. */
  function LegLayout(led: LedConfig, s: StructureConfig): (r: (seq<real>, real))
    requires Computable(led, s)
    ensures HasLegs(s) ==> |r.0| == s.legs.value.count >= 1
    ensures !HasLegs(s) ==> r.0 == [] && r.1 == 0.0
  {
    if HasLegs(s) then
      var spacing := LegSpacing(led.widthMm, s.legs.value);
      (LegPositions(s.legs.value.edgeOffsetMm, spacing, s.legs.value.count), spacing)
    else ([], 0.0)
  }

  /**
   * The leg limit: one leg per whole 500 mm of wall, but never fewer than
   * two. Below 1500 mm it is 2; from 1000 mm on, n legs' worth of 500 mm
   * fit in the wall and n + 1 do not.
   */
  function MaxLegs(widthMm: real): (n: int)
    ensures n >= 2
    ensures widthMm < 1500.0 ==> n == 2
    ensures widthMm >= 1000.0 ==> n as real * 500.0 <= widthMm < (n + 1) as real * 500.0
  {
    MaxI(2, Floor(widthMm / 500.0))
  }

  /** A wider wall never allows fewer legs. */
  lemma MaxLegsMonotone(w1: real, w2: real)
    requires w1 <= w2
    ensures MaxLegs(w1) <= MaxLegs(w2)
  {
    FloorMonotone(w1 / 500.0, w2 / 500.0);
  }

  function TotalDepthMm(led: LedConfig, s: StructureConfig): real {
    led.tileDepthMm + GapMm(s) + TrussDepthMm(s) + ArmInDepthMm(s)
  }

  /** The LED weight: every tile at its catalogue weight. */
  function LedWeight(tiles: int, tileWeightKg: real): (w: real)
  {
    tiles as real * tileWeightKg
  }

  /** The record `computeValues` returns, field by field. */
  function Values(led: LedConfig, s: StructureConfig): ComputedValues
    requires Computable(led, s)
  {
    var g := Grid(led);
    var ledWeight := LedWeight(g.totalTiles, led.tileWeightKg);
    var legLayout := LegLayout(led, s);
    var structureWeight := StructureWeight(s, legLayout.0);
    var resX := ResolutionX(led);
    var resY := ResolutionY(led);
    var watts := WattPerTile * g.totalTiles;
    ComputedValues(
      MaxLegs(led.widthMm),
      g.cols, g.rows, g.totalTiles, g.activeTiles,
      ledWeight, structureWeight, ledWeight + structureWeight,
      resX, resY, resX * resY,
      legLayout.0, legLayout.1, TubeLayout(led, s),
      BottomBarMm(s) + led.heightMm,
      TotalDepthMm(led, s),
      watts, Ceil(watts as real / WattPerLine),
      PowerLines(g.totalTiles, led.tileHeightMm),
      Network(resX * resY, led.controller)
    )
  }

  /** The tile counts of the record. */
  lemma ValuesGrid(led: LedConfig, s: StructureConfig)
    requires Computable(led, s)
    ensures var c := Values(led, s);
      && c.cols >= 1 && c.rows >= 1
      && c.totalTiles == c.cols * c.rows
      && 0 <= c.activeTiles
      && (led.deadRows >= 0 ==> c.activeTiles <= c.totalTiles)
  {
  }

  /** The weights, the leg limit, the power and the network entries of the record. */
  lemma ValuesLinks(led: LedConfig, s: StructureConfig)
    requires Computable(led, s)
    ensures var c := Values(led, s);
      && c.maxLegs == MaxLegs(led.widthMm)
      && c.ledWeightKg == LedWeight(c.totalTiles, led.tileWeightKg)
      && c.totalWeightKg == c.ledWeightKg + c.structureWeightKg
      && c.totalPixels == c.resolutionXPx * c.resolutionYPx
      && c.powerConsumptionW == WattPerTile * c.totalTiles
      && c.powerSchema == PowerLines(c.totalTiles, led.tileHeightMm)
      && c.networkSchema == Network(c.totalPixels, led.controller)
      && c.networkSchema.porteEthernetUsate <= c.networkSchema.porteEthernetTotali
  {
  }

  /**
   * The 16 A line count by wattage alone: the fewest 3128 W lines that carry
   * the consumption, never more than the power schema's lines.
   */
  lemma ValuesAmps(led: LedConfig, s: StructureConfig)
    requires Computable(led, s)
    ensures var c := Values(led, s);
      && c.powerAmps16A == Ceil(c.powerConsumptionW as real / WattPerLine)
      && c.powerAmps16A as real * 3128.0 >= c.powerConsumptionW as real
      && (c.powerAmps16A - 1) as real * 3128.0 < c.powerConsumptionW as real
      && c.powerAmps16A <= c.powerSchema.linee16A
  {
    var c := Values(led, s);
    WattPerLineIs3128();
    var x := c.powerConsumptionW as real / 3128.0;
    assert c.powerAmps16A == Ceil(x);
    assert x * 3128.0 == c.powerConsumptionW as real;
    AmpsBracket(x, c.powerAmps16A, c.powerConsumptionW as real);
    assert c.powerSchema.linee16A as real * 3128.0 >= c.powerConsumptionW as real;
    assert x <= c.powerSchema.linee16A as real;
    CeilLeast(x, c.powerSchema.linee16A);
  }

  /** Scaling the ceiling bracket of x = w / 3128 back to watts. */
  lemma AmpsBracket(x: real, k: int, w: real)
    requires x <= k as real < x + 1.0 && x * 3128.0 == w
    ensures k as real * 3128.0 >= w && (k - 1) as real * 3128.0 < w
  {
  }

  /** `computeValues`: every derived metric of the configuration. */
  function ComputeValues(led: LedConfig, s: StructureConfig): (c: ComputedValues)
    requires Computable(led, s)
    ensures c.cols >= 1 && c.rows >= 1
    ensures c.totalTiles == c.cols * c.rows
    ensures 0 <= c.activeTiles
    ensures led.deadRows >= 0 ==> c.activeTiles <= c.totalTiles
    ensures c.maxLegs == MaxLegs(led.widthMm)
    ensures c.ledWeightKg == LedWeight(c.totalTiles, led.tileWeightKg)
    ensures c.totalWeightKg == c.ledWeightKg + c.structureWeightKg
    ensures c.totalPixels == c.resolutionXPx * c.resolutionYPx
    ensures c.powerConsumptionW == WattPerTile * c.totalTiles
    ensures c.powerSchema == PowerLines(c.totalTiles, led.tileHeightMm)
    ensures c.networkSchema == Network(c.totalPixels, led.controller)
    ensures c.networkSchema.porteEthernetUsate <= c.networkSchema.porteEthernetTotali
    ensures c.powerAmps16A == Ceil(c.powerConsumptionW as real / WattPerLine)
    ensures c.powerAmps16A as real * 3128.0 >= c.powerConsumptionW as real
    ensures (c.powerAmps16A - 1) as real * 3128.0 < c.powerConsumptionW as real
    ensures c.powerAmps16A <= c.powerSchema.linee16A
  {
    ValuesGrid(led, s);
    ValuesLinks(led, s);
    ValuesAmps(led, s);
    Values(led, s)
  }

  lemma MulMonotone(a: int, b: int, c: int)
    requires a >= 0 && 0 <= b <= c
    ensures 0 <= a * b <= a * c
  {
  }
}
