# LED-wall stand configurator — a Dafny model

This project models the core of the AVL render tool. The tool configures a ground-standing (or flown) LED wall: a grid of 500 mm LED tiles on a truss structure with legs, horizontal scaffold tubes and a bottom bar. The model covers these parts:

- **the engine** (`computeValues`): tile grid, resolution from the pixel-pitch catalogue, leg and tube layout, weights, depth and height stack, 16 A power lines, and controller ports against the controller catalogue. The pitch, controller and truss catalogues are modelled with it.
- **the P record** (`projectToP`): the metre-based geometry the 3D viewer and the orthographic renderer draw from.
- **the scene** (`buildLedwallScene`): which meshes are built and where. This covers the cabinet grid with dead rows and columns, the square (QX30) and ladder (FX30) legs with their bracing and base plates, tubes and clamps, and the spacers used for direct mounting.
- **the orthographic sheets** (front, side and plan views): scale-to-fit framing, the dimension call-outs each view draws, the leg ticks and the data panel (sections, rows, height).
- **the export**: HTML escaping, the splice of the project's `P` script into the viewer template, the export guard on the mount type, and the interaxis and tube cells of the viewer panel.
- **the project store**: defaults, loading a saved document, and the editor's transitions with the leg-count clamp.
- **the desktop side** (`save_export`): the folder-name sanitizer and the output file names.

Lengths are exact `real`s in millimetres (metres in the P record). Counts are `int`s. `Math.round`, `Math.floor` and `Math.ceil` are written out in `Base`. Each module follows one source file:

| module | file |
|---|---|
| `Base` | shared helpers: `Option`, min/max, JavaScript rounding |
| `Types` | the project document's records |
| `PitchDb`, `ControllerDb`, `TrussDb` | the three catalogues |
| `Compute`, `ComputeProps` | the engine and the lemmas about it |
| `Projector` | `projectToP` |
| `SceneBuilder` | `buildLedwallScene` |
| `Orthographic` | the three orthographic sheets |
| `Export` | the export string logic |
| `Store` | the project store |
| `SaveExport` | the desktop export command |

## Model

| member | source | states |
|---|---|---|
| Base.Round | avl-render/src/engine/compute.ts:63-68 | `Math.round`: the result lies within half a unit of the input, with ties going up |
| Base.Ceil | avl-render/src/engine/compute.ts:80-83 | `Math.ceil`: the least integer not below the input |
| Base.Floor | avl-render/src/engine/compute.ts:106 | `Math.floor`: the greatest integer not above the input |
| Base.RoundOfInt | avl-render/src/engine/render-orthographic.ts:455-457 | rounding an integral value gives the value back |
| Base.RoundMonotone | avl-render/src/engine/compute.ts:63-68 | rounding never reverses the order of two values |
| Base.FloorMonotone | avl-render/src/engine/pitch-db.ts:49 | flooring never reverses the order of two values |
| Base.CeilLeast | avl-render/src/engine/compute.ts:80-83 | any integer at or above a value is at or above its ceiling |
| PitchDb.GetPixelsPer500mm | avl-render/src/engine/pitch-db.ts:46-50 | a catalogued pitch gives its table entry; any other non-zero pitch gives floor(500 / pitch) |
| PitchDb.PitchesAreTheKeys | avl-render/src/engine/pitch-db.ts:9-43 | the six catalogued pitches are exactly 1.5, 1.9, 2.6, 2.9, 3.9 and 4.8 |
| PitchDb.TableStrictlyDecreasing | avl-render/src/engine/pitch-db.ts:9-43 | inside the catalogue, a coarser pitch has strictly fewer pixels |
| PitchDb.FallbackNonIncreasing | avl-render/src/engine/pitch-db.ts:49 | outside the catalogue, a coarser positive pitch never has more pixels |
| PitchDb.MonotonicityBreaksAtBoundary | avl-render/src/engine/pitch-db.ts:46-50 | the uncatalogued 1.52 mm pitch yields 328 px, more than the catalogued 1.5 mm pitch's 320 |
| ControllerDb.GetControllerSpec | avl-render/src/engine/controller-db.ts:20-55 | VX1000, MCTRL4K and H2 have 6.5 M, 8 847 360 and 26 M pixels on 10, 16 and 40 ports, at 650 000 px per port |
| ControllerDb.PortsCoverCapacity | avl-render/src/engine/controller-db.ts:20-51 | a controller's ports together carry at least its capacity, with equality for every model except MCTRL4K |
| ControllerDb.CatalogueOrdered | avl-render/src/engine/controller-db.ts:20-51 | capacity and port count grow strictly from VX1000 to MCTRL4K to H2 |
| TrussDb.GetTrussSpec | avl-render/src/engine/truss-db.ts:19-45 | only FX30 is flat, and only QX30 has a load table; sections and linear masses are positive |
| TrussDb.CatalogueSections | avl-render/src/engine/truss-db.ts:20-44 | QX30 is 290 × 290 mm at 5.3 kg/m; FX30 is 220 × 30 mm at 2.8 kg/m |
| TrussDb.BasePlatesComplete | avl-render/src/engine/truss-db.ts:20-44 | both trusses carry a 320 × 740 mm base plate with a 70 mm inset |
| Compute.WattPerLineIs3128 | avl-render/src/engine/compute.ts:84-89 | a 16 A line at 230 V and 0.85 power factor carries 3128 W |
| Compute.SafeTile | avl-render/src/engine/compute.ts:17-18 | a tile size is at least 1 mm, and a real size is kept unchanged |
| Compute.GridCount | avl-render/src/engine/compute.ts:19-20 | a side always has at least one tile, and the count lies within half a tile of max(side, tile) / tile, as `Math.round` gives |
| Compute.GridCountExact | avl-render/src/engine/compute.ts:19-20 | a side that is k whole tiles long gets exactly k tiles |
| Compute.GridCountNearest | avl-render/src/engine/compute.ts:19-20 | the count is the one whole number within half a tile of that ratio, so e.g. 10.4 tiles give 10 |
| Compute.GetTileDimensions | avl-render/src/engine/compute.ts:132-137 | 500x500 tiles are 500 × 500 mm and 7.5 kg; 500x1000 tiles are 500 × 1000 mm and 14 kg |
| Compute.Grid | avl-render/src/engine/compute.ts:17-23 | at least one column and one row; active tiles are all columns times the rows above the dead ones, never more than the total |
| Compute.LegPositions | avl-render/src/engine/compute.ts:35-37 | one position per leg, leg i at edge + i × spacing |
| Compute.TubePositions | avl-render/src/engine/compute.ts:54-56 | one position per tube, tube i at base + (i + 1) × step |
| Compute.BottomBarMm | avl-render/src/engine/compute.ts:49 | the bar height when the bottom bar is fitted, else 0 (definition; used by TubeLayout and the total height) |
| Compute.TubeLayout | avl-render/src/engine/compute.ts:49-57 | one position per configured tube, tube i at bottom bar + (i + 1) × LED height / (tubes + 1) |
| Compute.LegSpacing | avl-render/src/engine/compute.ts:33-34 | with two or more legs, the two edge offsets plus (legs − 1) spacings make up the width; one leg or none gives 0 |
| Compute.TrussDepthMm | avl-render/src/engine/compute.ts:72 | the section width for a flat truss, the section depth otherwise (definition; its metre counterpart is Projector.TrussDepthM) |
| Compute.GapMm | avl-render/src/engine/compute.ts:74-75 | the LED-to-truss gap is positive, and is the 210 mm direct-mount gap exactly when there are no tubes (150 mm otherwise) |
| Compute.ArmInDepthMm | avl-render/src/engine/compute.ts:73 | an arm adds to the depth only for a non-flat truss with a leg configuration |
| Compute.TotalDepthMm | avl-render/src/engine/compute.ts:70-77 | tile depth + gap + truss depth + arm (definition; Projector.DepthMatchesComputeIff compares it with the record's planes) |
| Compute.ResolutionX | avl-render/src/engine/compute.ts:63-65 | the rounded active width in tiles times the pixels per 500 mm (definition; ComputeProps.ResolutionFromActiveSize states the formula) |
| Compute.ResolutionY | avl-render/src/engine/compute.ts:61-68 | the rounded active height in tiles times the pixels per tile height, doubled for 1000 mm tiles (definition; see ComputeProps.ResolutionFromActiveSize) |
| Compute.StructureWeight | avl-render/src/engine/compute.ts:27-47 | without laid-out legs the structure weighs nothing |
| Compute.PowerLines | avl-render/src/engine/compute.ts:79-91 | the line count carries the wattage and respects the 8 or 16 cabinets-per-line limit |
| Compute.PowerLinesLeast | avl-render/src/engine/compute.ts:80-87 | no smaller line count satisfies both limits |
| Compute.Network | avl-render/src/engine/compute.ts:93-104 | ports used never exceed the controller's ports and, when not capped, are the fewest that carry the pixels; all ports are shown only when the pixels need them (one port fewer would be too few); compatible exactly when the pixels fit the capacity |
| Compute.NetworkPortsExact | avl-render/src/engine/compute.ts:94-97 | the ports shown are min(k, ports) for the port count k the pixels need, i.e. min(⌈pixels / per-port⌉, ports) |
| Compute.ActiveTilesX | avl-render/src/engine/compute.ts:63-65 | the active width in tiles is never negative |
| Compute.ActiveTilesY | avl-render/src/engine/compute.ts:66-68 | the active height in tiles is never negative |
| Compute.LegLayout | avl-render/src/engine/compute.ts:27-37 | legs are laid out, one per configured leg, only for a ground mount with a leg configuration |
| Compute.MaxLegs | avl-render/src/engine/compute.ts:106 | the leg limit max(2, ⌊width / 500⌋): 2 below 1500 mm, and from 1000 mm up n × 500 ≤ width < (n + 1) × 500 |
| Compute.MaxLegsMonotone | avl-render/src/engine/compute.ts:106 | a wider wall never lowers the leg limit |
| Compute.ComputeValues | avl-render/src/engine/compute.ts:13-130 | grid totals, active tiles within total; the leg limit is MaxLegs of the width; LED weight = tiles × tile weight; total weight = LED + structure; pixels = horizontal × vertical resolution; watts = 150 W per tile; the power schema is PowerLines of the tile count and the network schema Network of the pixels, with ports used ≤ ports available; the 16 A line count by wattage is the fewest 3128 W lines that carry the consumption, ⌈watts / 3128⌉, and never exceeds the schema's lines |
| Compute.LedWeight | avl-render/src/engine/compute.ts:25 | every tile at its catalogue weight (definition, tied to the record by ComputeValues) |
| ComputeProps.LegPositionsEvenlySpaced | avl-render/src/engine/compute.ts:34-37 | neighbouring legs are exactly one spacing apart |
| ComputeProps.LegLayoutCore | avl-render/src/engine/compute.ts:31-37 | first leg at the edge offset, neighbours one spacing apart; for two or more legs, the last leg sits at width − offset |
| ComputeProps.LegLayoutShape | avl-render/src/engine/compute.ts:27-47 | the engine's leg fields follow that layout; without laid-out legs they are empty and the structure weight is 0 |
| ComputeProps.LegsIncreasingIff | avl-render/src/engine/compute.ts:33-37 | two or more legs run strictly left to right exactly when the wall is wider than twice the edge offset |
| ComputeProps.LegsIncreasingCore | avl-render/src/engine/compute.ts:33-37 | the same, for the layout on its own |
| ComputeProps.LegPositionsIncreasingIff | avl-render/src/engine/compute.ts:35-37 | equally spaced legs increase exactly when the spacing is positive |
| ComputeProps.LegGap | avl-render/src/engine/compute.ts:35-37 | with a positive spacing, a later leg stands further right |
| ComputeProps.StructureWeightFromInputs | avl-render/src/engine/compute.ts:39-46 | structure weight = leg truss (the arm only for a deep truss) + tubes at 1.5 kg/m over the leg span + 1 kg of clamps per leg and tube + 20 kg |
| ComputeProps.StructureWeightCore | avl-render/src/engine/compute.ts:39-46 | the same, for the weight function on its own |
| ComputeProps.TubePositionsIncreasing | avl-render/src/engine/compute.ts:54-56 | with a positive step, the tubes run strictly bottom to top |
| ComputeProps.TubePositionsInside | avl-render/src/engine/compute.ts:53-56 | every tube lies strictly between the base and the base plus (n + 1) steps |
| ComputeProps.TubeLayoutCore | avl-render/src/engine/compute.ts:49-57 | one tube per configured tube, spaced evenly with one more gap than tubes; for a positive LED height they increase and lie strictly inside the LED face |
| ComputeProps.TubesInsideFace | avl-render/src/engine/compute.ts:50-56 | tubes spread over a face of positive height increase and stay strictly inside it |
| ComputeProps.TubeLayoutShape | avl-render/src/engine/compute.ts:49-57 | the engine's tube positions are that layout |
| ComputeProps.HeightStack | avl-render/src/engine/compute.ts:49-71 | total height = LED height + bottom bar (if any) |
| ComputeProps.DepthStack | avl-render/src/engine/compute.ts:72-77 | total depth = tile depth + 210 mm gap without tubes (150 mm with them) + truss depth (width for a flat truss) + arm (none for a flat truss or without legs) |
| ComputeProps.DirectMountIsDeeper | avl-render/src/engine/compute.ts:76-77 | dropping all tubes adds exactly 60 mm of depth |
| ComputeProps.FlatTrussIgnoresArm | avl-render/src/engine/compute.ts:40-74 | with a flat truss, the arm length changes neither depth nor weight |
| ComputeProps.ResolutionIgnoresDeadRows | avl-render/src/engine/compute.ts:59-69 | the dead-row count changes neither resolution, pixel count, network nor power schema |
| ComputeProps.ResolutionFromActiveSize | avl-render/src/engine/compute.ts:59-69 | resolution = round(active size / tile size × pixels per 500 mm), doubled vertically for 1000 mm tiles |
| ComputeProps.ResolutionXCore | avl-render/src/engine/compute.ts:63-65 | the horizontal part of that formula |
| ComputeProps.ResolutionYCore | avl-render/src/engine/compute.ts:61-68 | the vertical part of that formula |
| ComputeProps.ScaledRoundMonotone | avl-render/src/engine/compute.ts:63-68 | fewer pixels per tile never give a higher rounded resolution |
| ComputeProps.PixelsMonotoneInPitch | avl-render/src/engine/pitch-db.ts:46-50 | within the catalogue, and within the fallback, a coarser pitch never has more pixels |
| ComputeProps.ResolutionMonotoneInPitch | avl-render/src/engine/compute.ts:59-68 | within each pitch regime, a coarser pitch never raises either resolution |
| ComputeProps.ResolutionXMonotone | avl-render/src/engine/compute.ts:63-65 | fewer pixels per 500 mm never raise the horizontal resolution |
| ComputeProps.ResolutionYMonotone | avl-render/src/engine/compute.ts:66-68 | fewer pixels per 500 mm never raise the vertical resolution |
| ComputeProps.PixelsPerTileHMonotone | avl-render/src/engine/compute.ts:61-62 | the same for the vertical pixels per tile |
| ComputeProps.CompatibleNeverCapped | avl-render/src/engine/compute.ts:94-97 | for a compatible controller, the ports shown carry every pixel |
| ComputeProps.PortSufficientYetOverloaded | avl-render/src/engine/compute.ts:94-99 | an MCTRL4K at 9 M px needs only 14 of its 16 ports, yet is reported incompatible |
| ComputeProps.VX1000Overloaded | avl-render/src/engine/compute.ts:94-99 | a VX1000 beyond 6.5 M px is incompatible and shows all 10 ports in use |
| ComputeProps.ScenarioA | avl-render/src/engine/compute.ts:13-130 | a 5000 × 2000 mm wall of 500 mm tiles at 2.6 mm pitch with one dead row: 10 × 4 tiles, 30 active, 1920 × 576 px, 3 power lines of 16 cabinets |
| ComputeProps.ScenarioB | avl-render/src/engine/compute.ts:31-37 | four legs on 5000 mm with a 500 mm offset stand at 500, 1833⅓, 3166⅔ and 4500 mm |
| ComputeProps.ScenarioC | avl-render/src/engine/compute.ts:72-77 | a deep truss without tubes uses the 210 mm gap |
| Projector.ToMetres | avl-render/src/engine/project-to-p.ts:27 | metres × 1000 give back the millimetres |
| Projector.ToMetresAll | avl-render/src/engine/project-to-p.ts:9-10 | every entry is converted and the order is kept |
| Projector.TrussDepthM | avl-render/src/engine/project-to-p.ts:14-16 | the truss depth in metres: the section for the flat FX30, the section depth otherwise |
| Projector.ProjectToP | avl-render/src/engine/project-to-p.ts:4-60 | every size in metres against its millimetre input: LED and active sizes, CAB_W, CAB_H, CAB = CAB_W, CAB_D, BOT_BAR (0 without a bar), QX, QX_DEPTH, base plates, CHORD_R, DIAG_R and TUBE_R = diameter / 2000, LEG_H and LEG_ARM when legs are configured (no leg data otherwise); grid from the metrics, dead rows and columns as given; flat exactly for FX30; Z_LED_BACK = CAB_D, Z_GAP = 0.21 without tubes and 0.15 with them, Z_TF = Z_LED_BACK + Z_GAP, Z_TB − Z_TF = the truss depth (section for FX30, section depth otherwise), Z_TC midway; QH = QX / 2 |
| Projector.FreshGrid | avl-render/src/engine/project-to-p.ts:35-36 | current metrics carry the engine's tile grid |
| Projector.PlaneOrder | avl-render/src/engine/project-to-p.ts:16-22 | LED back lies before truss front; front < centre < back exactly when the truss depth is positive |
| Projector.HeightMatchesCompute | avl-render/src/engine/project-to-p.ts:7-28 | bottom bar + LED height in metres is the engine's total height |
| Projector.DepthMatchesComputeIff | avl-render/src/engine/project-to-p.ts:16-23 | depth to the arm's end equals the engine's total depth, except for a flat truss with a non-zero arm |
| Projector.DepthCore | avl-render/src/engine/project-to-p.ts:16-23 | the same comparison against the depth formula on its own |
| Projector.LegsMatchCompute | avl-render/src/engine/project-to-p.ts:9 | legs appear only where the engine laid them out, one per configured ground leg, the last at width − offset |
| Projector.LegLayoutEnds | avl-render/src/engine/compute.ts:31-37 | the layout's length, emptiness and last position |
| Projector.OrphanLegConfig | avl-render/src/engine/project-to-p.ts:9-42 | a leg configuration on a non-ground mount places no leg, yet still sets the leg height |
| SceneBuilder.Cyl | avl-render/src/engine/scene-builder.ts:100-118 | cylinders have 12 sides above 2 cm radius and 8 otherwise |
| SceneBuilder.BottomBar | avl-render/src/engine/scene-builder.ts:223-225 | one bar box spanning the wall's width from the floor to the bar height, only for a positive bar height |
| SceneBuilder.CabinetBox | avl-render/src/engine/scene-builder.ts:229-232 | each box is 5 mm smaller than its cell, centred on the LED front plane z = 0, at its column and row; it is dark exactly in a dead row or a dead side column |
| SceneBuilder.CabinetFrame | avl-render/src/engine/scene-builder.ts:233-237 | each cabinet's outline has the size and centre of its box |
| SceneBuilder.Column | avl-render/src/engine/scene-builder.ts:228-239 | a column of n rows is 2n objects: row r's box at 2r, its outline at 2r + 1 |
| SceneBuilder.CabinetGrid | avl-render/src/engine/scene-builder.ts:227-240 | 2 × columns × rows objects: a box and an outline per cabinet |
| SceneBuilder.CabinetGridIndex | avl-render/src/engine/scene-builder.ts:227-240 | cabinet (c, r) is the box at 2 × (c × rows + r) with its outline just after: columns left to right, each bottom to top |
| SceneBuilder.CabinetGridAll | avl-render/src/engine/scene-builder.ts:227-240 | every cabinet of the wall is at its place in the grid, box then outline |
| SceneBuilder.CabinetBackHalfDepth | avl-render/src/engine/scene-builder.ts:232 | a box spans ±CAB_D / 2 about the front plane, so its back face lies at half of Z_LED_BACK |
| SceneBuilder.LitCountAppend | avl-render/src/engine/scene-builder.ts:227-240 | lit boxes of a concatenation add up |
| SceneBuilder.LitCountPair | avl-render/src/engine/scene-builder.ts:231-237 | a box and its outline light one object exactly when the box is lit |
| SceneBuilder.ColumnLitCount | avl-render/src/engine/scene-builder.ts:231 | a lit column has every row above the dead rows lit; a dead column has none |
| SceneBuilder.LitStep | avl-render/src/engine/scene-builder.ts:231 | one more row lights one more box exactly in a lit column above the dead rows |
| SceneBuilder.GridLitCount | avl-render/src/engine/scene-builder.ts:227-240 | lit boxes = lit columns × lit rows |
| SceneBuilder.ColumnLitTimes | avl-render/src/engine/scene-builder.ts:231 | a full column adds its lit rows when lit, nothing otherwise |
| SceneBuilder.Distribute | avl-render/src/engine/scene-builder.ts:227-240 | the per-column counts add up to the product |
| SceneBuilder.LitColumnsClosedForm | avl-render/src/engine/scene-builder.ts:231 | dead side columns are counted from both edges |
| SceneBuilder.LitCabinets | avl-render/src/engine/scene-builder.ts:227-240 | lit cabinets = (columns − 2 × dead columns) × (rows − dead rows), floored at 0 |
| SceneBuilder.BayHeights | avl-render/src/engine/scene-builder.ts:156-160 | every bracing level lies within the leg height |
| SceneBuilder.SquareLevel | avl-render/src/engine/scene-builder.ts:159-171 | a level has four ties, plus eight face diagonals below the top; every segment stays on the chords |
| SceneBuilder.SquareBracing | avl-render/src/engine/scene-builder.ts:156-173 | four bays give 52 segments, all on the chords |
| SceneBuilder.LadderBay | avl-render/src/engine/scene-builder.ts:210-217 | four diagonals per bay, each joining opposite chords one bay apart |
| SceneBuilder.LadderBracing | avl-render/src/engine/scene-builder.ts:207-218 | four per bay, all of that shape |
| SceneBuilder.PlateAt | avl-render/src/engine/scene-builder.ts:181-203 | the plate is centred on the leg, with its LED-side edge at the inset in front of the truss front face |
| SceneBuilder.SquareChords | avl-render/src/engine/scene-builder.ts:148-154 | four floor-standing chords at the corners of the square around the truss centre |
| SceneBuilder.SquareArms | avl-render/src/engine/scene-builder.ts:175-180 | four arm chords from the truss back to the arm's end |
| SceneBuilder.SquareLeg | avl-render/src/engine/scene-builder.ts:146-188 | chords, 52 braces, arms, and a 15 mm plate when requested |
| SceneBuilder.LadderChords | avl-render/src/engine/scene-builder.ts:204-206 | four floor-standing chords on the truss front and back planes, half the truss depth either side of the leg |
| SceneBuilder.LadderLeg | avl-render/src/engine/scene-builder.ts:190-219 | a 20 mm plate when requested, four chords and 16 crossing diagonals; all cylinders vertical |
| SceneBuilder.Leg | avl-render/src/engine/scene-builder.ts:146-221 | the leg builder follows the truss: the FX30 ladder leg (5 objects, chords on the truss front and back planes) when flat, the square leg (9 objects, chords around the truss centre and four arms) otherwise, one more with a base plate placed under the leg |
| SceneBuilder.Tubes | avl-render/src/engine/scene-builder.ts:244-247 | one tube per tube height, from the first leg to the last, at Z_TUBE; none unless there are two legs and some tubes |
| SceneBuilder.LegClamps | avl-render/src/engine/scene-builder.ts:249-252 | per tube, one clamp at Z_TUBE and one 6 cm in front of it |
| SceneBuilder.AllClamps | avl-render/src/engine/scene-builder.ts:248-253 | 2 × legs × tubes clamps |
| SceneBuilder.AllClampsIndex | avl-render/src/engine/scene-builder.ts:248-253 | the pair for leg i and tube j is at index 2 × (i × tubes + j) |
| SceneBuilder.BlockIndex | avl-render/src/engine/scene-builder.ts:248-253 | that index lies inside the clamp list |
| SceneBuilder.RowBelow | avl-render/src/engine/scene-builder.ts:248-253 | one leg's block ends within the list |
| SceneBuilder.LastBlock | avl-render/src/engine/scene-builder.ts:248-253 | the last leg's block starts after all the others |
| SceneBuilder.Clamps | avl-render/src/engine/scene-builder.ts:244-253 | clamps only when tubes are drawn |
| SceneBuilder.SpacerStation | avl-render/src/engine/scene-builder.ts:264-269 | a 2 cm bar from the cabinet back to the truss front, an 8 cm clamp on the truss front and a 6 cm clamp against the cabinet back |
| SceneBuilder.LegSpacers | avl-render/src/engine/scene-builder.ts:261-270 | two stations per leg, a third and two thirds up the LED |
| SceneBuilder.AllSpacers | avl-render/src/engine/scene-builder.ts:262-271 | six meshes per leg, all at a leg and a spacer height; every bar spans the gap |
| SceneBuilder.Spacers | avl-render/src/engine/scene-builder.ts:257 | spacers only with legs and no tubes |
| SceneBuilder.HasTubes | avl-render/src/engine/scene-builder.ts:244 | tubes and clamps need at least two legs and one tube height (definition; see SceneBuilder.FixingsExclusive) |
| SceneBuilder.HasSpacers | avl-render/src/engine/scene-builder.ts:257 | spacers need a leg and no tube height (definition; see SceneBuilder.FixingsExclusive) |
| SceneBuilder.BuildLedwallScene | avl-render/src/engine/scene-builder.ts:36-275 | counts of every part: bar, 2 × columns × rows cabinet objects with every cabinet box and outline in place, one leg per leg position, tubes, clamps, spacers |
| SceneBuilder.FixingsExclusive | avl-render/src/engine/scene-builder.ts:244-257 | tubes and spacers never appear together; a single leg with tubes gets neither |
| SceneBuilder.SpacerBridgesGap | avl-render/src/engine/scene-builder.ts:258 | the spacer bars of a projected scene are exactly as long as the front gap |
| SceneBuilder.LitMatchesActiveIff | avl-render/src/engine/scene-builder.ts:231 | lit cabinets equal the engine's active tiles exactly when dead rows ≥ 0 and either no side column is dead or no row is lit |
| SceneBuilder.LitVersusActive | avl-render/src/engine/compute.ts:22-23 | the counting identity behind that |
| SceneBuilder.CabinetsFillWall | avl-render/src/engine/scene-builder.ts:229-230 | on a whole number of tiles, the last column ends at the wall's right edge and the top row at the LED top |
| SceneBuilder.WholeGrid | avl-render/src/engine/project-to-p.ts:27-36 | on a whole number of tiles, the geometry holds exactly that grid of cells covering the LED face |
| SceneBuilder.CellSize | avl-render/src/engine/project-to-p.ts:31-32 | a cabinet cell is one tile, in metres |
| SceneBuilder.ExactGrid | avl-render/src/engine/compute.ts:19-20 | such a wall gets exactly that many columns and rows |
| SceneBuilder.CellsFill | avl-render/src/engine/scene-builder.ts:229-230 | exact cells reach the wall's edges |
| Orthographic.ToMm | avl-render/src/engine/render-orthographic.ts:455-457 | a call-out prints the length in millimetres, within half a millimetre |
| Orthographic.ToMmOfMetres | avl-render/src/engine/render-orthographic.ts:455-457 | a whole-millimetre length prints as itself |
| Orthographic.ToMmMonotone | avl-render/src/engine/render-orthographic.ts:455-457 | labels keep the order of the lengths |
| Orthographic.ViewExtent | avl-render/src/engine/render-orthographic.ts:490-716 | front: width × total height; side: depth × total height; plan: width × depth, where depth runs to the truss back plus the arm |
| Orthographic.FitScale | avl-render/src/engine/render-orthographic.ts:494-498 | the largest scale that fits both extents into 82 % of the 2160 × 1800 drawing area, with one extent touching it |
| Orthographic.FitFrame | avl-render/src/engine/render-orthographic.ts:494-503 | render at most 1771 × 1476 px with one side at its cap; floors of the scaled extents; origin at x = 160, centred vertically |
| Orthographic.RenderClearOfPanels | avl-render/src/engine/render-orthographic.ts:493-503 | for every drawable extent, the render lies left of the data panel, below y = 80 and above the title block |
| Orthographic.FrameIgnoresUnits | avl-render/src/engine/render-orthographic.ts:494-503 | only the aspect ratio matters: rescaled extents give the same render size and origin |
| Orthographic.ScaleUnits | avl-render/src/engine/render-orthographic.ts:496-498 | the scale divides by the unit factor |
| Orthographic.WidthDim | avl-render/src/engine/render-orthographic.ts:547 | the overall width call-out spans the render and prints the width |
| Orthographic.HeightDim | avl-render/src/engine/render-orthographic.ts:550 | the overall height call-out spans the render and prints the total height |
| Orthographic.DepthDim | avl-render/src/engine/render-orthographic.ts:662-768 | the overall depth call-out runs along x in the side view and along y in plan |
| Orthographic.LedHeightDim | avl-render/src/engine/render-orthographic.ts:553-560 | the LED height call-out covers the LED's scaled height from the top |
| Orthographic.BarDims | avl-render/src/engine/render-orthographic.ts:553-565 | with a bar, the LED and bar call-outs meet at the LED's lower edge and end at the render's bottom |
| Orthographic.SpanDims | avl-render/src/engine/render-orthographic.ts:567-575 | the leg span, from the first leg to the last, only for two or more legs |
| Orthographic.FrontDims | avl-render/src/engine/render-orthographic.ts:547-575 | width and height, the bar pair, and the span when present; all faithful |
| Orthographic.LedDepthDims | avl-render/src/engine/render-orthographic.ts:668-674 | LED depth only when wider than 30 px |
| Orthographic.TrussDepthDims | avl-render/src/engine/render-orthographic.ts:676-684 | truss depth, from truss front to back, only when wider than 20 px |
| Orthographic.SideLedDims | avl-render/src/engine/render-orthographic.ts:686-691 | the side view's LED height with a bar, but without the bar's own call-out |
| Orthographic.SideDims | avl-render/src/engine/render-orthographic.ts:662-691 | depth and height, then the conditional LED-depth, truss-depth and LED-height call-outs |
| Orthographic.PlanDims | avl-render/src/engine/render-orthographic.ts:765-776 | width and depth, then the span when present |
| Orthographic.LegTicks | avl-render/src/engine/render-orthographic.ts:577-588 | one tick per leg at its scaled position, only for two or more legs |
| Orthographic.RenderView | avl-render/src/engine/render-orthographic.ts:480-795 | every call-out of a view prints its quantity and is drawn to scale; the side view has no ticks |
| Orthographic.ShowsConcat | avl-render/src/engine/render-orthographic.ts:547-587 | the kinds drawn by parts add up |
| Orthographic.Selected | avl-render/src/engine/render-orthographic.ts:547-787 | per call-out kind, which views draw it and under which condition |
| Orthographic.CalloutSelection | avl-render/src/engine/render-orthographic.ts:547-787 | a view draws a kind exactly when the kind is selected for it |
| Orthographic.PairShows | avl-render/src/engine/render-orthographic.ts:547-550 | two fixed call-outs show exactly their kinds |
| Orthographic.FrontSelection | avl-render/src/engine/render-orthographic.ts:547-575 | the front view's call-outs are exactly its selection |
| Orthographic.SideSelection | avl-render/src/engine/render-orthographic.ts:662-691 | the side view's call-outs are exactly its selection |
| Orthographic.PlanSelection | avl-render/src/engine/render-orthographic.ts:765-776 | the plan's call-outs are exactly its selection |
| Orthographic.SingleShows | avl-render/src/engine/render-orthographic.ts:567-678 | a conditional call-out shows its kind exactly when drawn |
| Orthographic.TicksIncreasing | avl-render/src/engine/render-orthographic.ts:580-581 | ticks keep the legs' left-to-right order |
| Orthographic.FrontHeightIsEngineHeight | avl-render/src/engine/render-orthographic.ts:491 | the front view frames exactly the engine's total height |
| Orthographic.SideDepthOverEngine | avl-render/src/engine/render-orthographic.ts:610 | the side view is deeper than the engine's total depth by exactly the arm of a flat truss with legs; otherwise the two agree |
| Orthographic.Present | avl-render/src/engine/render-orthographic.ts:220-246 | only present, non-empty texts become rows; none present gives no rows, all present gives one row each |
| Orthographic.PresentCaptions | avl-render/src/engine/render-orthographic.ts:220-246 | rows carry only their fields' captions |
| Orthographic.PanelTitle | avl-render/src/engine/render-orthographic.ts:217 | the project name, or `Progetto` when empty |
| Orthographic.HeaderRows | avl-render/src/engine/render-orthographic.ts:211-216 | the date row always; a designer row exactly unless the designer is a dash; 1 to 5 rows |
| Orthographic.HeaderAssembly | avl-render/src/engine/render-orthographic.ts:212-216 | a caption occurs in the header exactly when its optional row is present |
| Orthographic.Optional | avl-render/src/engine/render-orthographic.ts:219-247 | a section is pushed exactly when it has rows |
| Orthographic.FixedSection | avl-render/src/engine/render-orthographic.ts:219-247 | a fixed section appears, under its title, exactly when one of its texts is present |
| Orthographic.LedSection | avl-render/src/engine/render-orthographic.ts:219-227 | LED WALL: up to 6 rows, present exactly when one of its texts is |
| Orthographic.StructureSection | avl-render/src/engine/render-orthographic.ts:229-238 | STRUTTURA: up to 7 rows, present exactly when one of its texts is |
| Orthographic.TechSection | avl-render/src/engine/render-orthographic.ts:240-247 | DATI TECNICI: up to 5 rows, present exactly when one of its texts is |
| Orthographic.Body | avl-render/src/engine/render-orthographic.ts:219-247 | at most three sections, in panel order |
| Orthographic.BodyOrdered | avl-render/src/engine/render-orthographic.ts:219-247 | the LED, structure and technical sections keep that order |
| Orthographic.PanelSections | avl-render/src/engine/render-orthographic.ts:207-247 | the header first, then 0 to 3 ordered sections |
| Orthographic.SectionPresence | avl-render/src/engine/render-orthographic.ts:219-247 | each fixed section is in the panel exactly when one of its texts is present |
| Orthographic.TitleIn | avl-render/src/engine/render-orthographic.ts:219-247 | a title occurs in a concatenation exactly when it occurs in a part |
| Orthographic.TotalRows | avl-render/src/engine/render-orthographic.ts:249-255 | no sections, no rows |
| Orthographic.TotalRowsAppend | avl-render/src/engine/render-orthographic.ts:249-255 | rows of concatenated sections add up |
| Orthographic.PanelHeight | avl-render/src/engine/render-orthographic.ts:249-255 | height = 2 × padding + 40 px per section + 24 px per row |
| Orthographic.PanelClearOfTitleBlock | avl-render/src/engine/render-orthographic.ts:249-361 | for any meta, at most 23 rows, and the panel plus the view name end above the title block |
| Orthographic.PanelRowsBound | avl-render/src/engine/render-orthographic.ts:207-247 | the panel has one to four sections and at most 23 rows |
| Orthographic.RowsOfParts | avl-render/src/engine/render-orthographic.ts:207-247 | header ≤ 5, LED ≤ 6, structure ≤ 7 and technical ≤ 5 rows give at most 23 |
| Orthographic.PanelFits | avl-render/src/engine/render-orthographic.ts:249-361 | the fullest panel plus the view name still ends above the title block |
| Orthographic.RulesFrom | avl-render/src/engine/render-orthographic.ts:312-334 | rules lie at row boundaries within the section's rows |
| Orthographic.RuleUnderLastRow | avl-render/src/engine/render-orthographic.ts:325 | as written, every row gets a rule, the last one included |
| Orthographic.RulesAsWritten | avl-render/src/engine/render-orthographic.ts:324-332 | the separator rules as drawn, with the row lookup that never finds the row (definition; see Orthographic.RuleUnderLastRow) |
| Orthographic.Rules | avl-render/src/engine/render-orthographic.ts:324-332 | the separator rules as intended, row i at position i (definition; see Orthographic.RulesBetweenRows) |
| Orthographic.AllRulesFrom | avl-render/src/engine/render-orthographic.ts:325 | as written, the rows from k on get one rule each, the last at the section's bottom edge |
| Orthographic.RulesBetweenRows | avl-render/src/engine/render-orthographic.ts:324-332 | as intended, n rows get n − 1 rules, one between each pair of neighbouring rows |
| Orthographic.InnerRulesFrom | avl-render/src/engine/render-orthographic.ts:324-332 | as intended, the rows from k on get one rule at each boundary between neighbouring rows |
| Export.ReplaceAll | avl-render/src/engine/export.ts:7-11 | a global replace removes the character unless the replacement contains it, and changes nothing when it is absent |
| Export.ReplaceAllConcat | avl-render/src/engine/export.ts:7-11 | replacing acts on the halves of a string independently |
| Export.EscapeHtml | avl-render/src/engine/export.ts:6-12 | no `<`, `>` or `"` remains; text without special characters is unchanged; the chain escapes per character |
| Export.EscapeChar | avl-render/src/engine/export.ts:8-11 | a plain character is kept, and no entity contains `<`, `>` or `"` |
| Export.EscapeEach | avl-render/src/engine/export.ts:6-12 | the per-character reference escaping leaves no `<`, `>` or `"` |
| Export.EscapeEachIdentity | avl-render/src/engine/export.ts:6-12 | text without special characters is kept |
| Export.EscapeIsPerCharacter | avl-render/src/engine/export.ts:7-11 | the four chained replacements equal escaping each character on its own (`&` first, so nothing is escaped twice) |
| Export.EscapeOneChar | avl-render/src/engine/export.ts:7-11 | the chain on one character gives its entity |
| Export.Unescape | avl-render/src/engine/export.ts:6-12 | decoding never lengthens the text |
| Export.UnescapeEscape | avl-render/src/engine/export.ts:6-12 | decoding the escaped text gives back the original |
| Export.UnescapeEach | avl-render/src/engine/export.ts:6-12 | the same for the reference escaping |
| Export.UnescapeOne | avl-render/src/engine/export.ts:8-11 | decoding reads one escaped character off the front |
| Export.UnescapeEntity | avl-render/src/engine/export.ts:8-11 | each of the four entities decodes to its character |
| Export.UnescapePlain | avl-render/src/engine/export.ts:6-12 | a plain character decodes to itself |
| Export.IndexFrom | avl-render/src/engine/export.ts:107-109 | the first occurrence at or after a position, or −1 |
| Export.IndexOf | avl-render/src/engine/export.ts:107-109 | `indexOf` from a start: a negative start searches from 0; the result is an occurrence with none before it, or −1 |
| Export.IndexOfFirst | avl-render/src/engine/export.ts:107-109 | a first occurrence is what `indexOf` finds |
| Export.SpliceAsWritten | avl-render/src/engine/export.ts:107-112 | without either marker the page is unchanged |
| Export.SpliceGuardSlip | avl-render/src/engine/export.ts:109-111 | with both markers and no `];`, the guard still passes and the page minus its first character is repeated after the script |
| Export.SlipMarkers | avl-render/src/engine/export.ts:107-108 | in that page the tube marker is at 0 and `const P = {` at 12 |
| Export.NoClose | avl-render/src/engine/export.ts:109 | that page has no `];`, so the search returns −1 |
| Export.Splice | avl-render/src/engine/export.ts:107-112 | unchanged without a marker or without a closing `];` after the tube list |
| Export.SpliceReplacesBlock | avl-render/src/engine/export.ts:107-111 | with all three markers, the page before `const P = {` and after the closing `];` is kept and the script goes in between |
| Export.SpliceAgreesAwayFromStart | avl-render/src/engine/export.ts:109-110 | the two guards agree unless the tube marker opens the page |
| Export.GroundFlyingExportsWithoutLegs | avl-render/src/engine/export.ts:172 | a ground-flying mount passes the guard, yet its metrics and geometry have no legs |
| Export.ExportRefusedIff | avl-render/src/engine/export.ts:172-175 | only the flying mount is refused |
| Export.DigitChar | avl-render/src/engine/export.ts:42 | digits are `0`–`9` |
| Export.DecimalString | avl-render/src/engine/export.ts:42 | decimal digits without a leading zero |
| Export.ParseDecimalString | avl-render/src/engine/export.ts:42 | the printed digits read back as the number |
| Export.InteraxisText | avl-render/src/engine/export.ts:42 | a dash without legs or without a positive spacing; otherwise the rounded spacing in mm |
| Export.InteraxisShownIff | avl-render/src/engine/export.ts:42 | for current metrics, the interaxis is shown exactly for two or more ground legs spread over more than twice the offset, and it reads back as the rounded spacing |
| Export.SpacingPositiveIff | avl-render/src/engine/compute.ts:33-34 | the spacing is positive exactly for two or more legs on a wall wider than twice the offset |
| Export.TubeText | avl-render/src/engine/export.ts:22-25 | a dash without tubes; otherwise the count, read back before the space, and the double-clamp suffix exactly for double clamps |
| Store.DefaultEvent | avl-render/src/store/project-store.ts:17-29 | `Nuovo Progetto`, revision 1, all three dates today |
| Store.DefaultLed | avl-render/src/store/project-store.ts:31-48 | catalogue tile dimensions; the active area lies within the physical one |
| Store.DefaultStructure | avl-render/src/store/project-store.ts:50-81 | ground-standing with four legs; truss section fields from the catalogue |
| Store.CreateProject | avl-render/src/store/project-store.ts:83-97 | the defaults, with metrics computed from them |
| Store.DefaultMetrics | avl-render/src/store/project-store.ts:31-97 | the default project: 10 × 4 tiles, 30 lit, 1920 × 576 px, 3 lines, 940 mm deep, tubes at 600, 1100 and 1600 mm |
| Store.DefaultLayout | avl-render/src/store/project-store.ts:60-81 | the default depth and tube heights |
| Store.MergeLedLaws | avl-render/src/store/project-store.ts:161 | the spread merge: an empty update changes nothing, a full one replaces, repeating it changes nothing more |
| Store.MergeLed | avl-render/src/store/project-store.ts:161 | the spread `{ ...led, ...patch }`: each field from the patch when given, else kept (definition; its laws are Store.MergeLedLaws) |
| Store.PatchedLed | avl-render/src/store/project-store.ts:161-169 | merge; tile dimensions from a given tile size; the active area clamped to the physical one; the rest as merged |
| Store.ClampLegs | avl-render/src/store/project-store.ts:171-174 | the leg count becomes min(count, limit); nothing else changes |
| Store.SetLed | avl-render/src/store/project-store.ts:159-185 | metrics from the new LED and the old structure; legs clamped to that limit; event and version untouched |
| Store.MergeStructureLaws | avl-render/src/store/project-store.ts:189 | the same merge laws for the structure |
| Store.MergeStructure | avl-render/src/store/project-store.ts:189 | the same spread for the structure (definition; its laws are Store.MergeStructureLaws) |
| Store.PatchedStructure | avl-render/src/store/project-store.ts:189-196 | merge; a given truss model brings its catalogue section |
| Store.SetStructure | avl-render/src/store/project-store.ts:187-210 | metrics from the patched structure, then legs clamped; LED, event and version untouched |
| Store.UpdateLegs | avl-render/src/store/project-store.ts:212-218 | without a leg configuration nothing happens; otherwise the legs merge, with the count clamped, and nothing else in the structure changes |
| Store.UpdateTubes | avl-render/src/store/project-store.ts:220-225 | the tubes merge; the rest of the structure changes only by the clamp |
| Store.SetTrussModel | avl-render/src/store/project-store.ts:227 | the model and its catalogue section are set |
| Store.SetTileSize | avl-render/src/store/project-store.ts:229 | the tile size and its catalogue dimensions are set |
| Store.SetEvent | avl-render/src/store/project-store.ts:150-157 | only the event changes, so current metrics stay current |
| Store.MergeEvent | avl-render/src/store/project-store.ts:154 | the same spread for the event (definition) |
| Store.MergeEventLaws | avl-render/src/store/project-store.ts:154 | an empty event update changes nothing, a full one replaces, repeating it changes nothing more |
| Store.Recompute | avl-render/src/store/project-store.ts:231-237 | the metrics become current and nothing else changes |
| Store.RecomputeIdempotent | avl-render/src/store/project-store.ts:231-237 | recomputing twice is recomputing once; a project is unchanged exactly when its metrics are current |
| Store.IdleLegCount | avl-render/src/engine/compute.ts:31 | without ground legs, the leg count changes no metric |
| Store.ClampedMetricsStale | avl-render/src/store/project-store.ts:170-200 | the metrics, computed before the clamp, describe the clamped structure exactly unless the clamp cut ground legs |
| Store.SetLedFreshIff | avl-render/src/store/project-store.ts:170-174 | after `setLed`, metrics are current exactly when no ground legs were cut |
| Store.SetStructureFreshIff | avl-render/src/store/project-store.ts:197-200 | after `setStructure`, metrics are current exactly when no ground legs were cut |
| Store.ValidateProject | avl-render/src/store/project-store.ts:100-131 | accepted exactly with a non-empty project name, a width and a height, and a mount type; the result has current metrics and keeps the document's name, size and mount |
| Store.Accepted | avl-render/src/store/project-store.ts:100-117 | the acceptance test: an event with a non-empty name, an LED record with width and height, a structure with a mount type (definition; Store.ValidateProject is exact about it) |
| Store.SaveLoadRoundTrip | avl-render/src/store/project-store.ts:100-131 | a saved project loads back as itself with current metrics; a project with an empty name is refused |
| SaveExport.Sanitize | avl-render/src-tauri/src/lib.rs:17-26 | same length; every character allowed; allowed characters kept in place; others become `_` |
| SaveExport.SanitizeFixesClean | avl-render/src-tauri/src/lib.rs:17-26 | a name is its own folder name exactly when it is clean |
| SaveExport.SanitizeIdempotent | avl-render/src-tauri/src/lib.rs:17-26 | sanitizing twice is sanitizing once |
| SaveExport.SanitizeCollides | avl-render/src-tauri/src/lib.rs:17-26 | names differing only in disallowed characters share a folder |
| SaveExport.ExportFolder | avl-render/src/engine/export.ts:178 | the folder is never empty: the sanitized name, or `Progetto` for an unnamed project |
| SaveExport.PngName | avl-render/src-tauri/src/lib.rs:40-57 | `<folder>_<VIEW>.png` |
| SaveExport.ViewOfPngName | avl-render/src-tauri/src/lib.rs:40-57 | the view reads back from its image name |
| SaveExport.PngNamesDistinct | avl-render/src-tauri/src/lib.rs:40-57 | two views share an image name exactly when they are the same view |
| SaveExport.NamesStayInFolder | avl-render/src-tauri/src/lib.rs:27-42 | no output name has a path separator, so every file lands in the export folder |
| SaveExport.PngFile | avl-render/src-tauri/src/lib.rs:40-45 | an image is written only when supplied |
| SaveExport.SavePlan | avl-render/src-tauri/src/lib.rs:8-60 | the folder is the sanitized name; `viewer.html` comes first; each view's image exists exactly when supplied and carries that view's payload |
| SaveExport.PlanFiles | avl-render/src-tauri/src/lib.rs:30-57 | the same, for the file list on its own |
| SaveExport.ViewerIsNoPng | avl-render/src-tauri/src/lib.rs:30-42 | the viewer page never takes an image's name |
| SaveExport.FileView | avl-render/src-tauri/src/lib.rs:40-57 | every image in the list belongs to a supplied view |
| SaveExport.IndexOfView | avl-render/src-tauri/src/lib.rs:40-57 | a supplied view's image is in the list |

## Left out

- Three.js, the canvas and WebGL rendering: meshes are modelled as a list of boxes, cylinders, line sets and cabinet outlines (an outline keeps the size and centre of its edge geometry). Lights, colours, material parameters and the render pixels are not modelled.
- Text layout and fonts: call-outs are modelled as endpoints, offset and printed number. Arrow heads, the page header, the border frame and the title block's text are not modelled; the title block's position is.
- `toLocaleString` and `toLocaleDateString` formatting: `Orthographic.ToMm` returns the integer it prints. The viewer panel's cells other than the interaxis and tube cells are not modelled.
- `Export.TubeText`: the tube diameter's decimal text is a parameter, because JavaScript number printing of reals is not modelled.
- The engine's human-readable `schema` strings and the pitch catalogue's source strings: labels only.
- `buildPScript`: the script is a parameter of the splice; its text is the P record, which `Projector.ProjectToP` models.
- The template fetch, the regex replacements of the title, the panel `div`, the demo title, the date and the file prefix in `buildViewerHtml`: they are text substitutions on a template that is not part of this model.
- `capturePngsFromHtml`, the folder dialog, the Tauri call, the alert and the browser download fallback: I/O.
- `save_export`'s filesystem writes, base64 decoding and data-URL prefix stripping: I/O. The plan lists which file receives which payload.
- `SaveExport.Alnum`: only ASCII letters and digits, where Rust's `is_alphanumeric` also accepts other Unicode letters and digits.
- Timestamps (`createdAt`, `updatedAt`) and the clock: the defaults take today's date as a parameter.
- `loadProject` and `reset`: they replace the store's state with a given project or with `Store.CreateProject`.
- JSON values of the wrong type in a loaded document: the document is modelled as typed optional fields, so an unknown mount string or a non-numeric width cannot be represented.
- `Store.ValidateProject` requires that an accepted document is computable. The engine divides by the pitch and reads the first leg position, so a zero pitch or zero ground legs give IEEE infinities or `NaN` in the source.
- IEEE floating point in general: lengths are exact reals. `Orthographic.FitScale` and the views require positive extents, where the source would divide by zero.
- The `?? fallback` branches of the P record, the scene and the engine: the truss model is a closed type and the catalogue is total, so they are unreachable.
- Z_TUBE: it is passed next to the P record by its callers, so it is a parameter of `SceneBuilder.BuildLedwallScene`.
- `Export.IndexOf`: only non-empty patterns, which covers every pattern the export searches for.
- `Store.SetLed`, `Store.SetStructure`: they keep the source's order (compute, then clamp), so the metrics can describe more legs than the clamped structure has. `Store.ClampedMetricsStale` states exactly when this happens.

## Findings

| source | as written | input that shows it | evidently intended | confidence | as-written member | corrected member |
|---|---|---|---|---|---|---|
| avl-render/src/engine/export.ts:109-110 | `tubeEnd = indexOf("];", pEnd) + 2` is checked only by `tubeEnd > pEnd`, so a missing `];` (−1 + 2 = 1) passes whenever `pEnd` is 0 | the template `P.TUBE_Y = [const P = {`: both markers, no `];`; the result is the tube marker, the script, then the whole page again without its first character | splice only when the closing `];` was found | not executed; medium | Export.SpliceAsWritten, Export.SpliceGuardSlip | Export.Splice, Export.SpliceReplacesBlock |
| avl-render/src/engine/render-orthographic.ts:325 | the separator test looks up a freshly built `[label, val]` array with `indexOf`, which compares by identity and returns −1, so the test is true for every row | any section with one row, such as a header with only the date: a rule is drawn under its last row | rules between rows only, none under the last | not executed; high | Orthographic.RulesAsWritten, Orthographic.RuleUnderLastRow | Orthographic.Rules, Orthographic.RulesBetweenRows |
