/**
 * The project store: the default project, loading a saved document, and
 * the transitions the editor applies (LED, structure, legs, tubes, truss
 * model, tile size, event, recompute), as pure `Project -> Project`
 * functions. Timestamps are not modelled; "today" is a parameter.
 *
 * A partial update is a record of optional fields: `Some(v)` is a key the
 * update carries, `None` a key it leaves out, as in an object spread.
 */
module Store {
  import opened Base
  import opened Types
  import Compute
  import ComputeProps
  import TrussDb
  import Projector

  // ---------------------------------------------------------------------
  // Defaults

  function DefaultEvent(today: string): (e: EventInfo)
    ensures e.projectName == "Nuovo Progetto" && e.revision == 1
    ensures e.eventDate == today && e.setupDate == today && e.teardownDate == today
  {
    EventInfo("Nuovo Progetto", "", "", today, None, None, today, None, None, today, None, None,
              "", "Andrea", 1)
  }

  /** A 5 x 2 m wall of 500 mm tiles at 2.6 mm pitch, 1.5 m lit over one dead row. */
  function DefaultLed(): (led: LedConfig)
    ensures (led.tileWidthMm, led.tileHeightMm, led.tileWeightKg) == Compute.GetTileDimensions(led.tileSize)
    ensures led.activeWidthMm <= led.widthMm && led.activeHeightMm <= led.heightMm
  {
    var tile := Compute.GetTileDimensions(Tile500x500);
    LedConfig(5000.0, 2000.0, 5000.0, 1500.0, Tile500x500, tile.0, tile.1, 2.6, 80.0, tile.2, 1, 0, VX1000)
  }

  function DefaultLegs(): LegConfig {
    LegConfig(4, 2000.0, 420.0, 500.0, true)
  }

  /** Ground-standing QX30 with four legs, a bottom bar and three double-clamped tubes. */
  function DefaultStructure(): (s: StructureConfig)
    ensures Compute.HasLegs(s) && s.legs.value.count == 4
    ensures CatalogueSection(s)
  {
    var qx := TrussDb.GetTrussSpec(QX30);
    StructureConfig(Ground, Flat, QX30, qx.sectionMm, qx.sectionDepthMm, qx.chordDiaMm, qx.diagDiaMm,
                    Some(DefaultLegs()), true, 100.0, 50.0, false, TubeConfig(3, 50.0, Double))
  }

  /** The truss section fields are the catalogue's for the chosen model. */
  predicate CatalogueSection(s: StructureConfig) {
    var spec := TrussDb.GetTrussSpec(s.trussModel);
    && s.trussSectionMm == spec.sectionMm && s.trussSectionDepthMm == spec.sectionDepthMm
    && s.trussChordDiaMm == spec.chordDiaMm && s.trussDiagDiaMm == spec.diagDiaMm
  }

  function CreateProject(today: string): (p: Project)
    ensures Projector.Fresh(p)
    ensures p.event == DefaultEvent(today) && p.led == DefaultLed() && p.structure == DefaultStructure()
  {
    var led := DefaultLed();
    var s := DefaultStructure();
    Project("1.0", DefaultEvent(today), led, s, Compute.ComputeValues(led, s))
  }

  /**
   * The default project's metrics: a 10 x 4 grid with 30 lit tiles,
   * 1920 x 576 px, three 16 A lines, 940 mm deep, tubes at 600, 1100 and
   * 1600 mm.
   */
  lemma DefaultMetrics(today: string)
    ensures var c := CreateProject(today).computed;
      && c.cols == 10 && c.rows == 4 && c.activeTiles == 30
      && c.resolutionXPx == 1920 && c.resolutionYPx == 576
      && c.powerSchema.linee16A == 3
      && c.totalDepthMm == 940.0
      && c.tubePositionsMm == [600.0, 1100.0, 1600.0]
  {
    ComputeProps.ScenarioA(DefaultLed(), DefaultStructure());
    DefaultLayout();
  }

  lemma DefaultLayout()
    ensures Compute.TotalDepthMm(DefaultLed(), DefaultStructure()) == 940.0
    ensures Compute.TubeLayout(DefaultLed(), DefaultStructure()) == [600.0, 1100.0, 1600.0]
  {
    assert Compute.TubePositions(100.0, 500.0, 3) == [600.0, 1100.0, 1600.0];
  }

  // ---------------------------------------------------------------------
  // Partial updates

  datatype LedPatch = LedPatch(
    widthMm: Option<real>,
    heightMm: Option<real>,
    activeWidthMm: Option<real>,
    activeHeightMm: Option<real>,
    tileSize: Option<TileSize>,
    tileWidthMm: Option<real>,
    tileHeightMm: Option<real>,
    tilePitchMm: Option<real>,
    tileDepthMm: Option<real>,
    tileWeightKg: Option<real>,
    deadRows: Option<int>,
    deadCols: Option<int>,
    controller: Option<ControllerModel>
  )

  /** `{ ...led, ...patch }` */
  function MergeLed(led: LedConfig, l: LedPatch): LedConfig {
    LedConfig(
      l.widthMm.GetOr(led.widthMm), l.heightMm.GetOr(led.heightMm),
      l.activeWidthMm.GetOr(led.activeWidthMm), l.activeHeightMm.GetOr(led.activeHeightMm),
      l.tileSize.GetOr(led.tileSize),
      l.tileWidthMm.GetOr(led.tileWidthMm), l.tileHeightMm.GetOr(led.tileHeightMm),
      l.tilePitchMm.GetOr(led.tilePitchMm), l.tileDepthMm.GetOr(led.tileDepthMm),
      l.tileWeightKg.GetOr(led.tileWeightKg),
      l.deadRows.GetOr(led.deadRows), l.deadCols.GetOr(led.deadCols),
      l.controller.GetOr(led.controller))
  }

  /** The update carrying every field of `led`. */
  function FullLedPatch(led: LedConfig): LedPatch {
    LedPatch(Some(led.widthMm), Some(led.heightMm), Some(led.activeWidthMm), Some(led.activeHeightMm),
             Some(led.tileSize), Some(led.tileWidthMm), Some(led.tileHeightMm), Some(led.tilePitchMm),
             Some(led.tileDepthMm), Some(led.tileWeightKg), Some(led.deadRows), Some(led.deadCols),
             Some(led.controller))
  }

  const NoLedChange: LedPatch := LedPatch(None, None, None, None, None, None, None, None, None, None, None, None, None)

  /** Merging is a right-biased overwrite: empty updates change nothing, full ones replace, repeats are idempotent. */
  lemma MergeLedLaws(led: LedConfig, l: LedPatch, other: LedConfig)
    ensures MergeLed(led, NoLedChange) == led
    ensures MergeLed(other, FullLedPatch(led)) == led
    ensures MergeLed(MergeLed(led, l), l) == MergeLed(led, l)
  {
  }

  /**
   * `setLed`'s new LED record: the merge, then the tile dimensions of a
   * given tile size, then the active area clamped to the physical one.
   */
  function PatchedLed(led: LedConfig, l: LedPatch): (r: LedConfig)
    ensures r.activeWidthMm <= r.widthMm && r.activeHeightMm <= r.heightMm
    ensures l.tileSize.Some? ==>
      r.tileSize == l.tileSize.value
      && (r.tileWidthMm, r.tileHeightMm, r.tileWeightKg) == Compute.GetTileDimensions(l.tileSize.value)
    ensures var m := MergeLed(led, l);
      && r.widthMm == m.widthMm && r.heightMm == m.heightMm
      && r.activeWidthMm == MinR(m.activeWidthMm, m.widthMm)
      && r.activeHeightMm == MinR(m.activeHeightMm, m.heightMm)
      && r.tilePitchMm == m.tilePitchMm && r.tileDepthMm == m.tileDepthMm
      && r.deadRows == m.deadRows && r.deadCols == m.deadCols && r.controller == m.controller
      && (l.tileSize.None? ==> r == m.(activeWidthMm := r.activeWidthMm, activeHeightMm := r.activeHeightMm))
  {
    var m := MergeLed(led, l);
    var sized := if l.tileSize.Some? then
      var t := Compute.GetTileDimensions(l.tileSize.value);
      m.(tileWidthMm := t.0, tileHeightMm := t.1, tileWeightKg := t.2)
    else m;
    var w := if sized.activeWidthMm > sized.widthMm then sized.widthMm else sized.activeWidthMm;
    var h := if sized.activeHeightMm > sized.heightMm then sized.heightMm else sized.activeHeightMm;
    sized.(activeWidthMm := w, activeHeightMm := h)
  }

  /** `structure.legs.count` cut down to the wall's leg limit. */
  function ClampLegs(s: StructureConfig, maxLegs: int): (r: StructureConfig)
    ensures r.legs.Some? <==> s.legs.Some?
    ensures r.legs.Some? ==> r.legs.value.count == MinI(s.legs.value.count, maxLegs)
    ensures r.legs.Some? ==> r.legs.value == s.legs.value.(count := r.legs.value.count)
    ensures r == s.(legs := r.legs)
  {
    if s.legs.Some? && s.legs.value.count > maxLegs then s.(legs := Some(s.legs.value.(count := maxLegs)))
    else s
  }

  /** The clamp changes the leg count. */
  predicate Clamps(s: StructureConfig, maxLegs: int) {
    s.legs.Some? && s.legs.value.count > maxLegs
  }

  function SetLed(p: Project, l: LedPatch): (r: Project)
    requires Compute.Computable(PatchedLed(p.led, l), p.structure)
    ensures r.led == PatchedLed(p.led, l)
    ensures r.computed == Compute.ComputeValues(r.led, p.structure)
    ensures r.structure == ClampLegs(p.structure, r.computed.maxLegs)
    ensures r.event == p.event && r.version == p.version
    ensures r.structure.legs.Some? ==> r.structure.legs.value.count <= r.computed.maxLegs
  {
    var led := PatchedLed(p.led, l);
    var computed := Compute.ComputeValues(led, p.structure);
    p.(led := led, structure := ClampLegs(p.structure, computed.maxLegs), computed := computed)
  }

  datatype StructurePatch = StructurePatch(
    mountType: Option<MountType>,
    wallShape: Option<WallShape>,
    trussModel: Option<TrussModel>,
    trussSectionMm: Option<real>,
    trussSectionDepthMm: Option<real>,
    trussChordDiaMm: Option<real>,
    trussDiagDiaMm: Option<real>,
    /** `Some(None)` is an update that sets `legs: null` */
    legs: Option<Option<LegConfig>>,
    bottomBar: Option<bool>,
    bottomBarHeightMm: Option<real>,
    bottomBarDiaMm: Option<real>,
    flyingBar: Option<bool>,
    horizontalTubes: Option<TubeConfig>
  )

  const NoStructureChange: StructurePatch :=
    StructurePatch(None, None, None, None, None, None, None, None, None, None, None, None, None)

  /** `{ ...structure, ...patch }`: nested records are replaced whole. */
  function MergeStructure(s: StructureConfig, u: StructurePatch): StructureConfig {
    StructureConfig(
      u.mountType.GetOr(s.mountType), u.wallShape.GetOr(s.wallShape), u.trussModel.GetOr(s.trussModel),
      u.trussSectionMm.GetOr(s.trussSectionMm), u.trussSectionDepthMm.GetOr(s.trussSectionDepthMm),
      u.trussChordDiaMm.GetOr(s.trussChordDiaMm), u.trussDiagDiaMm.GetOr(s.trussDiagDiaMm),
      u.legs.GetOr(s.legs),
      u.bottomBar.GetOr(s.bottomBar), u.bottomBarHeightMm.GetOr(s.bottomBarHeightMm),
      u.bottomBarDiaMm.GetOr(s.bottomBarDiaMm), u.flyingBar.GetOr(s.flyingBar),
      u.horizontalTubes.GetOr(s.horizontalTubes))
  }

  function FullStructurePatch(s: StructureConfig): StructurePatch {
    StructurePatch(Some(s.mountType), Some(s.wallShape), Some(s.trussModel), Some(s.trussSectionMm),
                   Some(s.trussSectionDepthMm), Some(s.trussChordDiaMm), Some(s.trussDiagDiaMm),
                   Some(s.legs), Some(s.bottomBar), Some(s.bottomBarHeightMm), Some(s.bottomBarDiaMm),
                   Some(s.flyingBar), Some(s.horizontalTubes))
  }

  lemma MergeStructureLaws(s: StructureConfig, u: StructurePatch, other: StructureConfig)
    ensures MergeStructure(s, NoStructureChange) == s
    ensures MergeStructure(other, FullStructurePatch(s)) == s
    ensures MergeStructure(MergeStructure(s, u), u) == MergeStructure(s, u)
  {
  }

  /**
   * `setStructure`'s new structure before the leg clamp: the merge, then,
   * when the update names a truss model, that model's catalogue section.
   */
  function PatchedStructure(s: StructureConfig, u: StructurePatch): (r: StructureConfig)
    ensures u.trussModel.Some? ==> r.trussModel == u.trussModel.value && CatalogueSection(r)
    ensures u.trussModel.None? ==> r == MergeStructure(s, u)
    ensures r.legs == u.legs.GetOr(s.legs) && r.mountType == u.mountType.GetOr(s.mountType)
    ensures r.horizontalTubes == u.horizontalTubes.GetOr(s.horizontalTubes)
  {
    var m := MergeStructure(s, u);
    if u.trussModel.Some? then
      var spec := TrussDb.GetTrussSpec(u.trussModel.value);
      m.(trussSectionMm := spec.sectionMm, trussSectionDepthMm := spec.sectionDepthMm,
         trussChordDiaMm := spec.chordDiaMm, trussDiagDiaMm := spec.diagDiaMm)
    else m
  }

  function SetStructure(p: Project, u: StructurePatch): (r: Project)
    requires Compute.Computable(p.led, PatchedStructure(p.structure, u))
    ensures r.computed == Compute.ComputeValues(p.led, PatchedStructure(p.structure, u))
    ensures r.structure == ClampLegs(PatchedStructure(p.structure, u), r.computed.maxLegs)
    ensures r.led == p.led && r.event == p.event && r.version == p.version
    ensures r.structure.legs.Some? ==> r.structure.legs.value.count <= r.computed.maxLegs
  {
    var s := PatchedStructure(p.structure, u);
    var computed := Compute.ComputeValues(p.led, s);
    p.(structure := ClampLegs(s, computed.maxLegs), computed := computed)
  }

  datatype LegPatch = LegPatch(
    count: Option<int>,
    heightMm: Option<real>,
    armLengthMm: Option<real>,
    edgeOffsetMm: Option<real>,
    basePlate: Option<bool>
  )

  function MergeLegs(legs: LegConfig, l: LegPatch): LegConfig {
    LegConfig(l.count.GetOr(legs.count), l.heightMm.GetOr(legs.heightMm), l.armLengthMm.GetOr(legs.armLengthMm),
              l.edgeOffsetMm.GetOr(legs.edgeOffsetMm), l.basePlate.GetOr(legs.basePlate))
  }

  /** The structure update `updateLegs` hands to `setStructure`. */
  function LegsUpdate(p: Project, l: LegPatch): StructurePatch
    requires p.structure.legs.Some?
  {
    NoStructureChange.(legs := Some(Some(MergeLegs(p.structure.legs.value, l))))
  }

  /** Updates the legs in place; without a leg configuration nothing happens. */
  function UpdateLegs(p: Project, l: LegPatch): (r: Project)
    requires p.structure.legs.Some? ==> Compute.Computable(p.led, PatchedStructure(p.structure, LegsUpdate(p, l)))
    ensures p.structure.legs.None? ==> r == p
    ensures p.structure.legs.Some? ==>
      && r.structure.legs.Some?
      && r.structure.legs.value == MergeLegs(p.structure.legs.value, l).(count := r.structure.legs.value.count)
      && r.structure.legs.value.count == MinI(MergeLegs(p.structure.legs.value, l).count, r.computed.maxLegs)
      && r.structure == p.structure.(legs := r.structure.legs)
  {
    if p.structure.legs.None? then p else SetStructure(p, LegsUpdate(p, l))
  }

  datatype TubePatch = TubePatch(count: Option<int>, diameterMm: Option<real>, clampType: Option<ClampType>)

  function MergeTubes(t: TubeConfig, u: TubePatch): TubeConfig {
    TubeConfig(u.count.GetOr(t.count), u.diameterMm.GetOr(t.diameterMm), u.clampType.GetOr(t.clampType))
  }

  function TubesUpdate(p: Project, t: TubePatch): StructurePatch {
    NoStructureChange.(horizontalTubes := Some(MergeTubes(p.structure.horizontalTubes, t)))
  }

  function UpdateTubes(p: Project, t: TubePatch): (r: Project)
    requires Compute.Computable(p.led, PatchedStructure(p.structure, TubesUpdate(p, t)))
    ensures r.structure.horizontalTubes == MergeTubes(p.structure.horizontalTubes, t)
    ensures r.structure == ClampLegs(p.structure, r.computed.maxLegs).(horizontalTubes := r.structure.horizontalTubes)
  {
    SetStructure(p, TubesUpdate(p, t))
  }

  function SetTrussModel(p: Project, model: TrussModel): (r: Project)
    requires Compute.Computable(p.led, PatchedStructure(p.structure, NoStructureChange.(trussModel := Some(model))))
    ensures r.structure.trussModel == model && CatalogueSection(r.structure)
  {
    SetStructure(p, NoStructureChange.(trussModel := Some(model)))
  }

  function SetTileSize(p: Project, size: TileSize): (r: Project)
    requires Compute.Computable(PatchedLed(p.led, NoLedChange.(tileSize := Some(size))), p.structure)
    ensures r.led.tileSize == size
    ensures (r.led.tileWidthMm, r.led.tileHeightMm, r.led.tileWeightKg) == Compute.GetTileDimensions(size)
  {
    SetLed(p, NoLedChange.(tileSize := Some(size)))
  }

  datatype EventPatch = EventPatch(
    projectName: Option<string>,
    client: Option<string>,
    location: Option<string>,
    eventDate: Option<string>,
    eventDateFrom: Option<Option<string>>,
    eventDateTo: Option<Option<string>>,
    setupDate: Option<string>,
    setupDateFrom: Option<Option<string>>,
    setupDateTo: Option<Option<string>>,
    teardownDate: Option<string>,
    teardownDateFrom: Option<Option<string>>,
    teardownDateTo: Option<Option<string>>,
    notes: Option<string>,
    designer: Option<string>,
    revision: Option<int>
  )

  function MergeEvent(e: EventInfo, u: EventPatch): EventInfo {
    EventInfo(
      u.projectName.GetOr(e.projectName), u.client.GetOr(e.client), u.location.GetOr(e.location),
      u.eventDate.GetOr(e.eventDate), u.eventDateFrom.GetOr(e.eventDateFrom), u.eventDateTo.GetOr(e.eventDateTo),
      u.setupDate.GetOr(e.setupDate), u.setupDateFrom.GetOr(e.setupDateFrom), u.setupDateTo.GetOr(e.setupDateTo),
      u.teardownDate.GetOr(e.teardownDate), u.teardownDateFrom.GetOr(e.teardownDateFrom),
      u.teardownDateTo.GetOr(e.teardownDateTo),
      u.notes.GetOr(e.notes), u.designer.GetOr(e.designer), u.revision.GetOr(e.revision))
  }

  function FullEventPatch(e: EventInfo): EventPatch {
    EventPatch(Some(e.projectName), Some(e.client), Some(e.location), Some(e.eventDate), Some(e.eventDateFrom),
               Some(e.eventDateTo), Some(e.setupDate), Some(e.setupDateFrom), Some(e.setupDateTo),
               Some(e.teardownDate), Some(e.teardownDateFrom), Some(e.teardownDateTo), Some(e.notes),
               Some(e.designer), Some(e.revision))
  }

  const NoEventChange: EventPatch :=
    EventPatch(None, None, None, None, None, None, None, None, None, None, None, None, None, None, None)

  /** The event merge obeys the same laws as the LED merge. */
  lemma MergeEventLaws(e: EventInfo, u: EventPatch, other: EventInfo)
    ensures MergeEvent(e, NoEventChange) == e
    ensures MergeEvent(other, FullEventPatch(e)) == e
    ensures MergeEvent(MergeEvent(e, u), u) == MergeEvent(e, u)
  {
  }

  /** Event edits touch nothing but the event, and the metrics stay as they were. */
  function SetEvent(p: Project, u: EventPatch): (r: Project)
    ensures r == p.(event := MergeEvent(p.event, u))
    ensures Projector.Fresh(p) ==> Projector.Fresh(r)
  {
    p.(event := MergeEvent(p.event, u))
  }

  function Recompute(p: Project): (r: Project)
    requires Compute.Computable(p.led, p.structure)
    ensures Projector.Fresh(r) && r == p.(computed := r.computed)
  {
    p.(computed := Compute.ComputeValues(p.led, p.structure))
  }

  lemma RecomputeIdempotent(p: Project)
    requires Compute.Computable(p.led, p.structure)
    ensures Recompute(Recompute(p)) == Recompute(p)
    ensures Projector.Fresh(p) <==> Recompute(p) == p
  {
  }

  // ---------------------------------------------------------------------
  // Stale metrics after the leg clamp

  /**
   * The leg count is read only when legs are laid out: with a leg
   * configuration on a mount without ground legs, changing the count does
   * not change any metric.
   */
  lemma IdleLegCount(led: LedConfig, s: StructureConfig, n: int)
    requires s.legs.Some? && !Compute.HasLegs(s) && Compute.Computable(led, s)
    ensures Compute.Computable(led, s.(legs := Some(s.legs.value.(count := n))))
    ensures Compute.ComputeValues(led, s.(legs := Some(s.legs.value.(count := n))))
            == Compute.ComputeValues(led, s)
  {
    var s' := s.(legs := Some(s.legs.value.(count := n)));
    assert Compute.LegLayout(led, s') == Compute.LegLayout(led, s);
    assert Compute.StructureWeight(s', []) == Compute.StructureWeight(s, []);
    assert Compute.TubeLayout(led, s') == Compute.TubeLayout(led, s);
    assert Compute.TotalDepthMm(led, s') == Compute.TotalDepthMm(led, s);
    assert Compute.BottomBarMm(s') == Compute.BottomBarMm(s);
  }

  /**
   * The store computes the metrics before it clamps the leg count, so the
   * stored metrics describe the stored configuration exactly unless the
   * clamp fired on ground legs (they then list more legs than the
   * structure has).
   */
  lemma ClampedMetricsStale(led: LedConfig, s: StructureConfig)
    requires Compute.Computable(led, s)
    ensures var c := Compute.ComputeValues(led, s);
      var s' := ClampLegs(s, c.maxLegs);
      && Compute.Computable(led, s')
      && (c == Compute.ComputeValues(led, s') <==> !(Clamps(s, c.maxLegs) && Compute.HasLegs(s)))
  {
    var c := Compute.ComputeValues(led, s);
    var s' := ClampLegs(s, c.maxLegs);
    if Clamps(s, c.maxLegs) {
      if Compute.HasLegs(s) {
        assert c.legPositionsMm == Compute.LegLayout(led, s).0;
        var c' := Compute.ComputeValues(led, s');
        assert c'.legPositionsMm == Compute.LegLayout(led, s').0;
        assert |c'.legPositionsMm| == c.maxLegs < |c.legPositionsMm|;
      } else {
        IdleLegCount(led, s, c.maxLegs);
      }
    }
  }

  /** After `setLed` the metrics are current exactly when the clamp did not cut ground legs. */
  lemma SetLedFreshIff(p: Project, l: LedPatch)
    requires Compute.Computable(PatchedLed(p.led, l), p.structure)
    ensures var r := SetLed(p, l);
      Projector.Fresh(r) <==> !(Clamps(p.structure, r.computed.maxLegs) && Compute.HasLegs(p.structure))
  {
    ClampedMetricsStale(PatchedLed(p.led, l), p.structure);
  }

  /** After `setStructure` the metrics are current exactly when the clamp did not cut ground legs. */
  lemma SetStructureFreshIff(p: Project, u: StructurePatch)
    requires Compute.Computable(p.led, PatchedStructure(p.structure, u))
    ensures var r := SetStructure(p, u);
      var s := PatchedStructure(p.structure, u);
      Projector.Fresh(r) <==> !(Clamps(s, r.computed.maxLegs) && Compute.HasLegs(s))
  {
    ClampedMetricsStale(p.led, PatchedStructure(p.structure, u));
  }

  // ---------------------------------------------------------------------
  // Loading a saved document

  /** A parsed document: each top-level object and each field may be missing. */
  datatype SavedDoc = SavedDoc(
    version: Option<string>,
    event: Option<EventPatch>,
    led: Option<LedPatch>,
    structure: Option<StructurePatch>
  )

  /** The checks `validateProject` makes before merging. */
  predicate Accepted(d: SavedDoc) {
    && d.event.Some? && d.event.value.projectName.Some? && d.event.value.projectName.value != ""
    && d.led.Some? && d.led.value.widthMm.Some? && d.led.value.heightMm.Some?
    && d.structure.Some? && d.structure.value.mountType.Some?
  }

  function MergedLed(d: SavedDoc): LedConfig
    requires d.led.Some?
  {
    MergeLed(DefaultLed(), d.led.value)
  }

  function MergedStructure(d: SavedDoc): StructureConfig
    requires d.structure.Some?
  {
    MergeStructure(DefaultStructure(), d.structure.value)
  }

  /**
   * `validateProject`: null unless the document has a non-empty project
   * name, a width and a height, and a mount type; otherwise the document
   * over the defaults, with metrics recomputed (stored metrics are ignored).
   */
  function ValidateProject(d: SavedDoc, today: string): (r: Option<Project>)
    requires Accepted(d) ==> Compute.Computable(MergedLed(d), MergedStructure(d))
    ensures r.Some? <==> Accepted(d)
    ensures r.Some? ==> Projector.Fresh(r.value)
    ensures r.Some? ==>
      && r.value.event.projectName == d.event.value.projectName.value
      && r.value.led.widthMm == d.led.value.widthMm.value
      && r.value.led.heightMm == d.led.value.heightMm.value
      && r.value.structure.mountType == d.structure.value.mountType.value
  {
    if !Accepted(d) then None
    else
      var defaults := CreateProject(today);
      var led := MergedLed(d);
      var s := MergedStructure(d);
      Some(Project(d.version.GetOr(defaults.version), MergeEvent(defaults.event, d.event.value), led, s,
                   Compute.ComputeValues(led, s)))
  }

  /** The document a project is saved as (without the derived metrics). */
  function SavedForm(p: Project): SavedDoc {
    SavedDoc(Some(p.version), Some(FullEventPatch(p.event)), Some(FullLedPatch(p.led)),
             Some(FullStructurePatch(p.structure)))
  }

  /**
   * Saving and loading gives the project back with fresh metrics, provided
   * it has a project name; a project whose name was cleared is refused.
   */
  lemma SaveLoadRoundTrip(p: Project, today: string)
    requires Compute.Computable(p.led, p.structure)
    ensures p.event.projectName != "" ==> ValidateProject(SavedForm(p), today) == Some(Recompute(p))
    ensures p.event.projectName == "" ==> ValidateProject(SavedForm(p), today).None?
  {
    MergeLedLaws(p.led, NoLedChange, DefaultLed());
    MergeStructureLaws(p.structure, NoStructureChange, DefaultStructure());
  }
}
