/**
 * Truss catalogue: the deep square QX30 and the flat ladder FX30.
 */
module TrussDb {
  import opened Base
  import opened Types

  datatype LoadCapacity = LoadCapacity(span3m: real, span5m: real, span10m: real)

  datatype TrussSpec = TrussSpec(
    sectionMm: real,
    sectionDepthMm: real,
    chordDiaMm: real,
    diagDiaMm: real,
    weightKgM: real,
    displayName: string,
    isFlat: bool,
    basePlateWidthMm: real,
    basePlateDepthMm: real,
    /** distance from the plate's LED-side edge to the truss front face */
    basePlateInsetMm: real,
    loadCapacityKg: Option<LoadCapacity>
  )

  /** The catalogue, total over the closed set of truss models. */
  function GetTrussSpec(model: TrussModel): (spec: TrussSpec)
    ensures spec.isFlat <==> model == FX30
    ensures spec.loadCapacityKg.Some? <==> model == QX30
    ensures spec.weightKgM > 0.0 && spec.sectionMm > 0.0 && spec.sectionDepthMm > 0.0
  {
    match model
    case QX30 =>
      TrussSpec(290.0, 290.0, 50.0, 18.0, 5.3, "LITEC QX30SA (Americana)", false,
                320.0, 740.0, 70.0, Some(LoadCapacity(2473.0, 1750.0, 834.0)))
    case FX30 =>
      TrussSpec(220.0, 30.0, 50.0, 20.0, 2.8, "Prolyte FX30 (Piatta/Ladder)", true,
                320.0, 740.0, 70.0, None)
  }

  /** QX30 is square 290 x 290 at 5.3 kg/m; FX30 is 220 x 30 at 2.8 kg/m. */
  lemma CatalogueSections()
    ensures GetTrussSpec(QX30).sectionMm == GetTrussSpec(QX30).sectionDepthMm == 290.0
    ensures GetTrussSpec(FX30).sectionMm == 220.0 && GetTrussSpec(FX30).sectionDepthMm == 30.0
    ensures GetTrussSpec(QX30).weightKgM == 5.3 && GetTrussSpec(FX30).weightKgM == 2.8
  {
  }

  /** Both entries carry a 320 x 740 mm base plate with a 70 mm inset. */
  lemma BasePlatesComplete(model: TrussModel)
    ensures GetTrussSpec(model).basePlateWidthMm == 320.0
    ensures GetTrussSpec(model).basePlateDepthMm == 740.0
    ensures GetTrussSpec(model).basePlateInsetMm == 70.0
  {
  }
}
