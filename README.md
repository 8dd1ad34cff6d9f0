# SODA-BIP core, modelled in Dafny

SODA-BIP is a browser dashboard for architectural models. It imports a DXF, OBJ, STL or glTF file, measures the imported mesh, and optimises the material use. The measurements are volume, surface area, bounding size, weight and cost. It exports a report. `FileHandler` also has an `exportDXF` method, which nothing in the application calls. This project models the core of that program and proves properties of the model:

- **Metric calculator** (`src/utils/calculations.ts`), in `metrics.dfy` and `optimizer.dfy`.
  - Volume is a sum of origin-tetrahedron volumes, area a sum of cross-product halves.
  - Both loops walk index triples or runs of nine positions.
  - Weight and cost come from the material; the bounding size comes from the vertices.
  - `optimizeModel` shrinks the volume towards `minVolume`.
- **Laws of the calculator** (`metric_laws.dfy`, with arithmetic in `vector_laws.dfy`):
  - Scaling: volume scales by |k|³, area by k².
  - Translation does not change the area.
  - Indexed and de-indexed buffers measure the same.
  - Joining buffers adds their measures.
- **The undo/redo store** (`src/store/index.ts`), in `store.dfy`.
  - It is specified by pure transition functions, `With…`, `Undone` and `Redone`.
  - It is implemented as the class `AppStore`, whose methods update its fields.
- **The dashboard** (`src/components/Dashboard.tsx`), in `dashboard.dfy`.
  - Loader dispatch on the file extension.
  - Flattening a loaded group into one geometry, as the source does: every mesh's raw position array, its index ignored.
  - A corrected combination that reads each mesh through its index (see Findings).
  - The import handler, the export guard and the panel setters, on the class `DashboardState`.
- **The file handlers** (`src/utils/fileHandlers.ts`), in `filehandlers.dfy`.
  - `exportDXF` emits one 3D face per triangle into a writer.
  - `loadDXF` turns LINE, CIRCLE and ARC entities into group children.

Shared pieces:

- `three.dfy` holds the parts of three.js the core relies on: vectors, buffer geometries, the object tree and its traversal.
- `types.dfy` holds the records of `src/types/index.ts` and the default material and constraints.

How the model represents the JavaScript runtime:

- Numbers are modelled as exact reals.
- The square root inside `Vector3.length()` is a function parameter `sqrt`. It is constrained only by `IsSqrt`: the root of 0 is 0, and roots are non-negative. The scaling laws also assume `SquaresBack`.
- Loaders and the file system are parameters or left out.
- A read past a typed array gives `undefined`, and the `Vector3` constructor turns an `undefined` coordinate into 0. The model reads the same way (`Metrics.Read`). So the calculator and `exportDXF` are total: a missing index entry gives the origin, and a partial last run of positions is read as if padded with zeros. `WellFormed` describes the buffers that hold whole triangles, on which the walks read nothing missing.

Two facts about `optimizeModel` that the model keeps:

- It divides by `metrics.cost` without a guard. For a zero cost the savings percentage is not a finite number, which the model writes as `None`.
- It returns an empty `steps` list.

## Model

| member | source | states |
|---|---|---|
| `Metrics.Triangles` | src/utils/calculations.ts:14-57 | one triangle per index triple, or per run of nine positions when there is no index |
| `Metrics.TetraVolume` | src/utils/calculations.ts:33-34 | a triangle's contribution \|v1 · (v2 × v3)\| / 6 is never negative |
| `Metrics.TriangleArea` | src/utils/calculations.ts:93-95 | a triangle's area \|(v2 − v1) × (v3 − v1)\| / 2 is never negative |
| `Metrics.SumVolume` | src/utils/calculations.ts:9-57 | the running volume total is never negative |
| `Metrics.SumArea` | src/utils/calculations.ts:70-122 | the running area total is never negative |
| `Metrics.VolumeTrace` | src/utils/calculations.ts:36-56 | the discarded volume trace has one step per triangle |
| `Metrics.AreaTrace` | src/utils/calculations.ts:99-121 | the discarded area trace has one step per triangle |
| `Metrics.SumVolumeStep` | src/utils/calculations.ts:34-40 | one loop iteration adds that triangle's contribution and appends its trace step |
| `Metrics.SumAreaStep` | src/utils/calculations.ts:97-103 | one loop iteration adds that triangle's area and appends its trace step |
| `Metrics.TriangleNumber` | src/utils/calculations.ts:16-47 | triangle k is read at offset 9k, or through index entries 3k to 3k+2 |
| `Metrics.ReadTriangles` | src/utils/calculations.ts:14-47 | on any buffers the loops visit one triangle per started index triple, or per started run of nine positions |
| `Metrics.ReadTrianglesWellFormed` | src/utils/calculations.ts:14-47 | on a buffer of whole triangles, the visited triangles are exactly its triangles |
| `Metrics.Padded` | src/utils/calculations.ts:44-47 | the zero-padded buffer holds whole triangles, and each of its numbers is what the loop reads at that offset, 0 past the end |
| `Metrics.PaddedWhole` | src/utils/calculations.ts:44-47 | a buffer of whole triangles is its own zero-padded buffer |
| `Metrics.ReadAsPadded` | src/utils/calculations.ts:44-47 | without an index, a buffer with a partial last triangle is read as its zero-padded buffer of whole triangles |
| `Metrics.ReadsAgree` | src/utils/calculations.ts:14-47 | the visited triangles are the geometry's triangles when it is well formed, and those of the zero-padded buffer when there is no index |
| `Metrics.CalculatedVolume` | src/utils/calculations.ts:6-65 | the volume the calculator returns for any buffers is non-negative, equals `Volume` of a well-formed geometry, and of the zero-padded buffer when there is no index |
| `Metrics.CalculatedArea` | src/utils/calculations.ts:67-130 | the area the calculator returns for any buffers is non-negative, equals `SurfaceArea` of a well-formed geometry, and of the zero-padded buffer when there is no index |
| `Metrics.IndexedWalkAt` | src/utils/calculations.ts:15-30 | at counter i = 3k below the index length, the loop reads triangle k of the indexed walk |
| `Metrics.RunWalkAt` | src/utils/calculations.ts:44-47 | at counter i = 9k below the position count, the loop reads triangle k of the unindexed walk |
| `Metrics.VolumeByIndex` | src/utils/calculations.ts:14-41 | the indexed loop returns the volume total of the triangles it walks and their trace in order |
| `Metrics.VolumeByRuns` | src/utils/calculations.ts:42-57 | the unindexed loop returns the volume total of the triangles it walks and their trace in order |
| `Metrics.AreaByIndex` | src/utils/calculations.ts:74-104 | the indexed loop returns the area total of the triangles it walks and their trace in order |
| `Metrics.AreaByRuns` | src/utils/calculations.ts:105-122 | the unindexed loop returns the area total of the triangles it walks and their trace in order |
| `Metrics.CalculateVolumeFromGeometry` | src/utils/calculations.ts:6-65 | for any buffers, the loop returns `CalculatedVolume` (missing reads as 0) and builds the per-triangle trace in order |
| `Metrics.CalculateSurfaceAreaFromGeometry` | src/utils/calculations.ts:67-130 | for any buffers, the loop returns `CalculatedArea` (missing reads as 0) and builds the per-triangle trace in order |
| `Metrics.AxisMin` | src/utils/calculations.ts:142-145 | the bounding box minimum is attained by a vertex and is below every vertex on that axis |
| `Metrics.AxisMax` | src/utils/calculations.ts:142-145 | the bounding box maximum is attained by a vertex and is above every vertex on that axis |
| `Metrics.BoundingSize` | src/utils/calculations.ts:142-145 | every axis of the size is non-negative; an empty buffer has size zero |
| `Metrics.Priced` | src/utils/calculations.ts:138-139 | weight = volume × density and cost = weight × unit cost; both are non-negative for non-negative inputs |
| `Metrics.MetricsOf` | src/utils/calculations.ts:132-154 | for a buffer of whole vertices, the metrics carry the calculated volume and area (`Volume` and `SurfaceArea` when well formed), a non-negative size, and weight and cost derived from the material |
| `Metrics.CalculateMetricsFromGeometry` | src/utils/calculations.ts:132-154 | for a buffer of whole vertices, the method returns exactly the metrics of the geometry under the material |
| `Optimizer.Max` | src/utils/calculations.ts:165 | `Math.max` is an upper bound of both arguments and equal to one of them |
| `Optimizer.VolumeReduction` | src/utils/calculations.ts:165 | the reduction is never negative: zero at or below the minimum volume, and exactly down to the minimum above it |
| `Optimizer.OptimizeModel` | src/utils/calculations.ts:156-191 | the original is kept; the optimised volume is min(V, minVolume); weight and cost drop by the savings; for a non-zero cost, percentage × cost = cost savings × 100, and for a zero cost no finite percentage; area and size are unchanged; three recommendations; no steps |
| `Optimizer.AlreadyOptimal` | src/utils/calculations.ts:165-174 | at or below the minimum volume, nothing changes and every saving is 0, the percentage too when the cost is not zero |
| `Optimizer.ReducesToMinimum` | src/utils/calculations.ts:165-170 | above the minimum volume, the model is cut to exactly the minimum and the material saving is positive |
| `Optimizer.OnlyMinVolumeMatters` | src/utils/calculations.ts:156-191 | `maxCost`, `maxWeight` and the material list do not affect the result |
| `Optimizer.NothingGrows` | src/utils/calculations.ts:165-172 | for a non-negative material, the optimised volume, weight and cost do not exceed the original ones, and the cost saving is not negative |
| `Optimizer.KeepsPricing` | src/utils/calculations.ts:166-172 | metrics priced with the material stay priced with it after optimisation |
| `Optimizer.OptimizeTwice` | src/utils/calculations.ts:165-172 | optimising the optimised model changes nothing more and saves nothing (idempotence) |
| `Optimizer.PercentageIsVolumeShare` | src/utils/calculations.ts:174 | for priced metrics of non-zero cost, the savings percentage is the share of volume removed, × 100 |
| `Optimizer.ZeroCostReport` | src/utils/calculations.ts:165-174 | for priced metrics of zero cost and a non-negative minimum volume, no cost is saved and the percentage is not a finite number |
| `MetricLaws.TetraVolumePermutation` | src/utils/calculations.ts:33-34 | a triangle's contribution does not depend on where its vertex list starts or on its orientation |
| `MetricLaws.DegenerateTriangleArea` | src/utils/calculations.ts:93-95 | a triangle with two equal corners has area 0 |
| `MetricLaws.TriangleAreaTranslation` | src/utils/calculations.ts:93-95 | moving a triangle does not change its area |
| `MetricLaws.SignedVolumeScale` | src/utils/calculations.ts:33 | scaling by k multiplies the signed volume by k³ |
| `MetricLaws.TetraVolumeScale` | src/utils/calculations.ts:33-34 | scaling by k multiplies a contribution by \|k³\| |
| `MetricLaws.TriangleAreaScale` | src/utils/calculations.ts:93-95 | scaling by k multiplies a triangle's area by k² |
| `MetricLaws.EmptyBuffers` | src/utils/calculations.ts:9-64 | no triangles means volume 0 and area 0 |
| `MetricLaws.SumVolumeScale` | src/utils/calculations.ts:44-57 | scaling every triangle multiplies the volume total by \|k³\| |
| `MetricLaws.SumAreaScale` | src/utils/calculations.ts:106-122 | scaling every triangle multiplies the area total by k² |
| `MetricLaws.ScaledTriangles` | src/utils/calculations.ts:14-57 | scaling the position buffer scales every visited triangle, the index untouched |
| `MetricLaws.GeometryScale` | src/utils/calculations.ts:6-130 | scaling a geometry by k multiplies its volume by \|k³\| and its area by k² |
| `MetricLaws.SumAreaTranslation` | src/utils/calculations.ts:106-122 | translating every triangle leaves the area total unchanged |
| `MetricLaws.GeometryTranslation` | src/utils/calculations.ts:67-130 | translating a geometry's positions leaves its surface area unchanged |
| `MetricLaws.DeIndexedTriangles` | src/utils/calculations.ts:14-30 | the indexed walk visits the same triangles as the plain walk over the de-indexed buffer |
| `MetricLaws.IndexedMatchesDeIndexed` | src/utils/calculations.ts:14-57 | an indexed geometry and its de-indexed buffer have the same volume and area |
| `MetricLaws.SumVolumeAppend` | src/utils/calculations.ts:44-57 | the volume total of two triangle lists laid end to end is the sum of the two totals |
| `MetricLaws.SumAreaAppend` | src/utils/calculations.ts:106-122 | the area total of two triangle lists laid end to end is the sum of the two totals |
| `MetricLaws.JoinedBuffers` | src/utils/calculations.ts:44-57 | joining two buffers of whole triangles joins their triangle lists and adds their volumes and areas |
| `Store.Initial` | src/store/index.ts:24-43 | the store starts with no model or geometry, the Baja material, the default constraints, no steps and empty history |
| `Store.Edit` | src/store/index.ts:44-52 | an edit pushes the current data onto `past`, clears `future`, and grows the history by one |
| `Store.WithActiveModel` | src/store/index.ts:44-52 | only `activeModel` changes; the old data is pushed and `future` cleared |
| `Store.WithModelGeometry` | src/store/index.ts:53-61 | only `modelGeometry` changes; the old data is pushed and `future` cleared |
| `Store.WithMaterial` | src/store/index.ts:62-70 | only `material` changes; the old data is pushed and `future` cleared |
| `Store.WithConstraints` | src/store/index.ts:71-79 | only `constraints` changes; the old data is pushed and `future` cleared |
| `Store.WithCalculationSteps` | src/store/index.ts:80-88 | only `calculationSteps` changes; the old data is pushed and `future` cleared |
| `Store.Undone` | src/store/index.ts:89-103 | with no past, nothing changes; otherwise the last past entry is restored and the current data is put at the front of `future` |
| `Store.Redone` | src/store/index.ts:104-118 | with no future, nothing changes; otherwise the first future entry is restored and the current data is pushed onto `past` |
| `Store.HistorySize` | src/store/index.ts:89-118 | undo and redo keep the total number of history entries |
| `Store.RedoAfterUndo` | src/store/index.ts:89-118 | redo after undo gives back the exact state |
| `Store.UndoAfterRedo` | src/store/index.ts:89-118 | undo after redo gives back the exact state |
| `Store.UndoAfterEdit` | src/store/index.ts:44-103 | undoing an edit restores the old data and the old past, with the edit as the only redo |
| `Store.AppStore.constructor` | src/store/index.ts:24-43 | a new store holds the initial state |
| `Store.AppStore.SetActiveModel` | src/store/index.ts:44-52 | the store's new state is `WithActiveModel` of its old state |
| `Store.AppStore.SetModelGeometry` | src/store/index.ts:53-61 | the store's new state is `WithModelGeometry` of its old state |
| `Store.AppStore.SetMaterial` | src/store/index.ts:62-70 | the store's new state is `WithMaterial` of its old state |
| `Store.AppStore.SetConstraints` | src/store/index.ts:71-79 | the store's new state is `WithConstraints` of its old state |
| `Store.AppStore.SetCalculationSteps` | src/store/index.ts:80-88 | the store's new state is `WithCalculationSteps` of its old state |
| `Store.AppStore.Restore` | src/store/index.ts:95-96 | spreading an entry replaces every data field and leaves the history alone |
| `Store.AppStore.Undo` | src/store/index.ts:89-103 | the store's new state is `Undone` of its old state |
| `Store.AppStore.Redo` | src/store/index.ts:104-118 | the store's new state is `Redone` of its old state |
| `Dashboard.DotFreeTail` | src/components/Dashboard.tsx:35 | `split('.').pop()` is the longest dot-free tail of the name: the whole name when there is no dot, and preceded by a dot otherwise |
| `Dashboard.Extension` | src/components/Dashboard.tsx:35 | the extension is the lower-cased dot-free tail of the name, preceded by a dot unless it is the whole name, and has no capital letter, so the lower-case switch labels match any case of the file name |
| `Dashboard.ExtensionOfDottedName` | src/components/Dashboard.tsx:35 | a name ending in `.ext` has extension `ext`, lower-cased, whatever dots precede it |
| `Dashboard.ExtensionOfUndottedName` | src/components/Dashboard.tsx:35 | a name without a dot is its own extension, lower-cased |
| `Dashboard.Route` | src/components/Dashboard.tsx:39-56 | the switch picks a loader exactly for the extensions the file chooser accepts (line 134), and gives the unsupported-format error otherwise |
| `Dashboard.Flatten` | src/components/Dashboard.tsx:64-74 | the combined geometry has no index; its buffer is the meshes' raw arrays in traversal order, as `PositionsAppend` and `NoMeshNoPositions` state |
| `Dashboard.PositionsAppend` | src/components/Dashboard.tsx:66-72 | the traversal pushes in order: the flattened buffer of a list of objects is the raw buffers of its parts, concatenated |
| `Dashboard.NoMeshNoPositions` | src/components/Dashboard.tsx:68-71 | lines, groups and other objects push nothing |
| `Dashboard.LoneMeshFlatten` | src/components/Dashboard.tsx:66-73 | a group holding one mesh flattens to that mesh's raw positions, whatever its index |
| `Dashboard.WholeBuffersMeasurable` | src/components/Dashboard.tsx:66-75 | when every mesh's raw buffer holds whole vertices (or whole triangles), so does the flattened buffer, so the group's bounding box is measurable |
| `Dashboard.RawMeshesSoup` | src/components/Dashboard.tsx:67-72 | without indices every mesh's raw buffer is its triangles, so the flattened buffer is the corrected combination's buffer |
| `Dashboard.FlattenIsCombine` | src/components/Dashboard.tsx:64-75 | a group of unindexed meshes (the OBJ case) flattens to the corrected combination, and so measures the sum of its meshes' volumes and areas |
| `Dashboard.CombineMeshes` | src/components/Dashboard.tsx:64-74 | the traversal loop fails exactly when some mesh's array exceeds the engine's argument limit for the spread `push`, and otherwise builds exactly the flattened geometry: every mesh's raw position array in traversal order, with no index |
| `Dashboard.TriangleSoup` | src/components/Dashboard.tsx:69-70 | corrected combination (see Findings): a mesh's contribution holds whole triangles and visits the same triangles as the mesh |
| `Dashboard.SoupPositions` | src/components/Dashboard.tsx:67-72 | corrected combination (see Findings): the pushed buffer always holds whole triangles |
| `Dashboard.Combine` | src/components/Dashboard.tsx:64-74 | corrected combination (see Findings): the combined geometry has no index and is measurable |
| `Dashboard.SoupAppend` | src/components/Dashboard.tsx:67-72 | corrected combination (see Findings): the buffer of a list of objects is the buffers of its parts, concatenated |
| `Dashboard.NoMeshNoSoup` | src/components/Dashboard.tsx:68-71 | corrected combination (see Findings): lines, groups and other objects contribute nothing |
| `Dashboard.SoupMeasures` | src/components/Dashboard.tsx:64-75 | corrected combination (see Findings): the buffer measures exactly the sum of the meshes' own volumes and areas |
| `Dashboard.CombinedMeasures` | src/components/Dashboard.tsx:64-75 | corrected combination (see Findings): a group is measured as the sum of its meshes' volumes and areas |
| `Dashboard.LoneMesh` | src/components/Dashboard.tsx:64-75 | corrected combination (see Findings): a group holding one mesh measures that mesh's own volume and area |
| `Dashboard.FlattenIgnoresIndex` | src/components/Dashboard.tsx:67-71 | as written, a mesh drawing a triangle twice through its index is measured at half its volume |
| `Dashboard.MeasuredValue` | src/components/Dashboard.tsx:61-76 | the calculator gets a single geometry as it is and a group flattened; a group of unindexed meshes of whole triangles has whole vertices and is measured as the sum of its meshes |
| `Dashboard.LoadFile` | src/components/Dashboard.tsx:31-56 | the extension picks the loader; no file, an unsupported extension or a rejected load yield nothing |
| `Dashboard.MeasureValue` | src/components/Dashboard.tsx:60-76 | no metrics exactly when a group's spread `push` throws; otherwise the metrics of the loaded geometry, or of the flattened group, under the current material |
| `Dashboard.DashboardState.constructor` | src/components/Dashboard.tsx:13-28 | no model, no geometry, the Baja material and the default constraints |
| `Dashboard.DashboardState.HandleFileImport` | src/components/Dashboard.tsx:30-83 | a failed load changes nothing; a successful load stores the loaded value, and then its metrics unless the spread `push` throws, which leaves the previous metrics beside the new geometry; material and constraints never change |
| `Dashboard.DashboardState.HandleExportReport` | src/components/Dashboard.tsx:85-92 | no active model means no report; otherwise the result is `optimizeModel` of the active model, constraints and material |
| `Dashboard.DashboardState.SetMaterial` | src/components/Dashboard.tsx:176-217 | a material edit replaces the material and leaves the measured model as it was |
| `Dashboard.DashboardState.SetConstraints` | src/components/Dashboard.tsx:233-264 | a constraints edit replaces the constraints and nothing else |
| `FileHandlers.DxfWriter.constructor` | src/utils/fileHandlers.ts:120 | a new writer holds no faces |
| `FileHandlers.DxfWriter.Add3DFace` | src/utils/fileHandlers.ts:130-135 | adding a face appends it |
| `FileHandlers.FaceOf` | src/utils/fileHandlers.ts:125-135 | a face repeats its third corner as the fourth, and its first three corners are the triangle |
| `FileHandlers.Faces` | src/utils/fileHandlers.ts:124-136 | one face per nine positions |
| `FileHandlers.FaceNumber` | src/utils/fileHandlers.ts:124-136 | face j is the triangle at offset 9j |
| `FileHandlers.FacesRoundTrip` | src/utils/fileHandlers.ts:124-136 | reading the corners of the exported faces back gives the position buffer exactly |
| `FileHandlers.FacesAreTriangles` | src/utils/fileHandlers.ts:124-136 | without an index, the exported faces are the triangles the calculator measures, one for one |
| `FileHandlers.ExportDXF` | src/utils/fileHandlers.ts:119-139 | for any buffer, the loop emits exactly `Faces` of the zero-padded positions (of the positions themselves for whole triangles), the index ignored, every face with its fourth corner equal to its third |
| `FileHandlers.PaddedRunAt` | src/utils/fileHandlers.ts:124-127 | at counter i = 9k below the position count, the three reads give the triangle of the zero-padded buffer at i |
| `FileHandlers.ExportRoundTrip` | src/utils/fileHandlers.ts:124-136 | reading the exported faces back gives the position buffer followed by the zeros of a partial last face |
| `FileHandlers.ChildOf` | src/utils/fileHandlers.ts:21-54 | LINE, CIRCLE and ARC each give one child: a six-number line, a 32-segment circle, a 50-segment arc; any other entity gives none |
| `FileHandlers.Children` | src/utils/fileHandlers.ts:19-57 | never more children than entities |
| `FileHandlers.ChildrenCount` | src/utils/fileHandlers.ts:20-56 | the number of children is the number of LINE, CIRCLE and ARC entities |
| `FileHandlers.ChildrenAppend` | src/utils/fileHandlers.ts:20-56 | the children keep entity order: children of two entity lists concatenate |
| `FileHandlers.DxfGroup.constructor` | src/utils/fileHandlers.ts:16 | a new group has no children |
| `FileHandlers.DxfGroup.Add` | src/utils/fileHandlers.ts:30 | adding a child appends it |
| `FileHandlers.LoadDXF` | src/utils/fileHandlers.ts:9-64 | no entity list gives an empty group; the load succeeds exactly when every LINE has two vertices, and then yields `Children` of the entities |

## Left out

- Floating point: numbers are exact reals. The `Float32Array` rounding in the DXF loader and in the combined group geometry is not modelled.
- `Metrics.CalculateVolumeFromGeometry` and `Metrics.CalculateSurfaceAreaFromGeometry` return their per-triangle trace as a ghost value. The source builds it and then discards it. Only the trace's structure is stated; its decimal text uses `NatToString`.
- The `catch` blocks of the calculator (src/utils/calculations.ts:59-62 and 124-127) are not modelled: nothing inside their `try` blocks throws, since a read past a typed array gives `undefined`, which the `Vector3` constructor replaces by 0. The position attribute is read before the `try`; a geometry without one cannot be written in the model.
- `Vector3.length()` uses a square root passed in as the parameter `sqrt`. Only non-negativity, and for the scaling laws the squaring-back property, are assumed of it.
- The `mathjs` import in `calculations.ts` is unused and not modelled.
- `Optimizer.OptimizeModel`: the non-finite savings percentage of a zero cost is `None`. Whether the source gets `NaN` or an infinity is not distinguished.
- The recommendations are modelled as structured values rather than `toFixed(2)` strings.
- Report generation (PDF and Excel, `src/utils/reportGenerator.ts`) and saving files are not part of this model. `HandleExportReport` returns the optimisation result the reports are made from.
- The OBJ, STL and glTF loaders, and the DXF parser, are outside the core. The dashboard takes the loaders as a parameter, and `LoadDXF` takes the parsed entity list. A parse failure is the parameter's rejected result.
- `FileHandlers.LoadDXF`: the parsed entities are assumed to have centres. A CIRCLE or ARC without a centre would also throw in the source.
- CIRCLE and ARC children are described by their parameters: radius, segment count, centre and angles. The `CircleGeometry` and `EllipseCurve` vertex tables involve trigonometry and are not built. So the DXF group is not connected to the object tree that the dashboard measures.
- `DxfWriter.stringify` (the DXF text) is not modelled. `ExportDXF` returns the faces added to the writer.
- Object transforms (`position`, rotation, scale) are not applied when a group is combined, as in the source. The object tree carries no transforms.
- Lower-casing covers the ASCII letters only; Unicode case mapping is not modelled.
- Asynchrony (`await`, promises), the file input element, `alert` and console logging are not modelled. Rendering, the 3D viewer and the currency formatter are not modelled either.
- `Metrics.MetricsOf` and `Metrics.CalculateMetricsFromGeometry` require whole vertices: a position count that is a multiple of three. The bounding box (`computeBoundingBox`, a three.js method that is not part of this model) walks `length / 3` vertices. A partial last vertex is then read with missing coordinates, and what those do to the box depends on the three.js version. Position attributes of item size 3 always hold whole vertices, and so does a flattened group of them (`Dashboard.WholeBuffersMeasurable`).
- `Dashboard.DashboardState.HandleFileImport` and `Dashboard.MeasureValue` require the measured buffer to have whole vertices when the measurement goes through, for the same reason.
- The engine's limit on the number of arguments of a call is the parameter `argLimit` of `Dashboard.CombineMeshes`. The limit of a real engine is not fixed here. Only the spread `push` is checked against it.
- Parsing the numeric inputs of the panels (`parseFloat`) is not modelled. The setters take the finished record.

## Findings

| source | as written | input that shows it | evidently intended | confidence | as-written member | corrected member |
|---|---|---|---|---|---|---|
| src/components/Dashboard.tsx:67-71 | a group is measured by pushing each mesh's raw position array and ignoring the mesh's index buffer | one mesh drawing a triangle twice through the index [0, 1, 2, 0, 1, 2], with a triangle that spans volume such as (1,0,0), (0,1,0), (0,0,1): measured at 1/6, where the mesh's own volume is 2/6. A CircleGeometry or a typical glTF mesh is indexed too, and its position count need not be a multiple of nine | each mesh is measured by its own triangles (read through its index), so a group measures the sum of its meshes | medium, not executed | `Dashboard.FlattenIgnoresIndex` | `Dashboard.CombinedMeasures` |

The dashboard in this model measures a group as the source does, through `Dashboard.Flatten`. The corrected combination, `Dashboard.Combine`, reads each mesh through its index. `Dashboard.CombinedMeasures` proves that it measures the sum of the meshes. `Dashboard.FlattenIsCombine` proves that the two agree when no mesh has an index.
