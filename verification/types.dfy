/**
 * The project document: event, LED wall, support structure and the derived
 * metrics. Lengths are millimetres, masses kilograms. The free-form label
 * strings of the power and network schemas are not modelled.
 */
module Types {
  import opened Base

  datatype MountType = Ground | Flying | GroundFlying
  datatype WallShape = Flat | Concave | Convex
  datatype TrussModel = QX30 | FX30
  datatype TileSize = Tile500x500 | Tile500x1000
  datatype ClampType = Single | Double
  datatype ControllerModel = VX1000 | MCTR4K | H2

  datatype EventInfo = EventInfo(
    projectName: string,
    client: string,
    location: string,
    eventDate: string,
    eventDateFrom: Option<string>,
    eventDateTo: Option<string>,
    setupDate: string,
    setupDateFrom: Option<string>,
    setupDateTo: Option<string>,
    teardownDate: string,
    teardownDateFrom: Option<string>,
    teardownDateTo: Option<string>,
    notes: string,
    designer: string,
    revision: int
  )

  datatype LedConfig = LedConfig(
    widthMm: real,
    heightMm: real,
    activeWidthMm: real,
    activeHeightMm: real,
    tileSize: TileSize,
    tileWidthMm: real,
    tileHeightMm: real,
    tilePitchMm: real,
    tileDepthMm: real,
    tileWeightKg: real,
    deadRows: int,
    deadCols: int,
    controller: ControllerModel
  )

  datatype LegConfig = LegConfig(
    count: int,
    heightMm: real,
    armLengthMm: real,
    edgeOffsetMm: real,
    basePlate: bool
  )

  datatype TubeConfig = TubeConfig(
    count: int,
    diameterMm: real,
    clampType: ClampType
  )

  datatype StructureConfig = StructureConfig(
    mountType: MountType,
    wallShape: WallShape,
    trussModel: TrussModel,
    trussSectionMm: real,
    trussSectionDepthMm: real,
    trussChordDiaMm: real,
    trussDiagDiaMm: real,
    legs: Option<LegConfig>,
    bottomBar: bool,
    bottomBarHeightMm: real,
    bottomBarDiaMm: real,
    flyingBar: bool,
    horizontalTubes: TubeConfig
  )

  datatype PowerSchema = PowerSchema(
    linee16A: int,
    maxCabinetPerLinea: int,
    wattPerLinea: int
  )

  datatype NetworkSchema = NetworkSchema(
    porteEthernetUsate: int,
    porteEthernetTotali: int,
    controllerCompatibile: bool,
    pixelPerPorta: int
  )

  datatype ComputedValues = ComputedValues(
    maxLegs: int,
    cols: int,
    rows: int,
    totalTiles: int,
    activeTiles: int,
    ledWeightKg: real,
    structureWeightKg: real,
    totalWeightKg: real,
    resolutionXPx: int,
    resolutionYPx: int,
    totalPixels: int,
    legPositionsMm: seq<real>,
    legSpacingMm: real,
    tubePositionsMm: seq<real>,
    totalHeightMm: real,
    totalDepthMm: real,
    powerConsumptionW: int,
    powerAmps16A: int,
    powerSchema: PowerSchema,
    networkSchema: NetworkSchema
  )

  /** The document without its `createdAt`/`updatedAt` timestamps. */
  datatype Project = Project(
    version: string,
    event: EventInfo,
    led: LedConfig,
    structure: StructureConfig,
    computed: ComputedValues
  )
}
