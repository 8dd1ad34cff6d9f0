/** Volume, surface area, bounding size, weight and cost of a triangulated
    buffer geometry (`GeometricCalculator` in the application). */
module Metrics {
  import opened Wrappers
  import opened Three
  import opened Types

  datatype Triangle = Triangle(v1: Vector3, v2: Vector3, v3: Vector3)

  /** The vertex whose three coordinates start at offset k of a position buffer. */
  function VertexAt(p: seq<real>, k: nat): Vector3
    requires k + 2 < |p|
  {
    Vector3(p[k], p[k + 1], p[k + 2])
  }

  predicate IndicesInRange(p: seq<real>, idx: seq<nat>) {
    forall j :: 0 <= j < |idx| ==> 3 * idx[j] + 2 < |p|
  }

  /** The geometries the calculator measures without reading past a buffer:
      an index buffer must come in triples of in-range vertex numbers (and
      the position buffer in whole vertices, which the bounding box reads);
      without one, the position buffer must come in whole triangles. */
  predicate WellFormed(g: BufferGeometry) {
    match g.index
    case None => |g.positions| % 9 == 0
    case Some(idx) => |idx| % 3 == 0 && |g.positions| % 3 == 0 && IndicesInRange(g.positions, idx)
  }

  /** The triangle made of the nine numbers at offset i. */
  function TriangleAt(p: seq<real>, i: nat): Triangle
    requires i + 8 < |p|
  {
    Triangle(VertexAt(p, i), VertexAt(p, i + 3), VertexAt(p, i + 6))
  }

  /** The triangle whose vertex numbers are the index entries at i, i+1, i+2. */
  function IndexedTriangle(p: seq<real>, idx: seq<nat>, i: nat): Triangle
    requires i + 2 < |idx| && IndicesInRange(p, idx)
  {
    Triangle(VertexAt(p, 3 * idx[i]), VertexAt(p, 3 * idx[i + 1]), VertexAt(p, 3 * idx[i + 2]))
  }

  /** The triangles the calculator visits, in visiting order. */
  function Triangles(g: BufferGeometry): (ts: seq<Triangle>)
    requires WellFormed(g)
    ensures |ts| == if g.index.None? then |g.positions| / 9 else |g.index.value| / 3
  {
    match g.index
    case None =>
      seq(|g.positions| / 9, j requires 0 <= j < |g.positions| / 9 => TriangleAt(g.positions, 9 * j))
    case Some(idx) =>
      seq(|idx| / 3, j requires 0 <= j < |idx| / 3 => IndexedTriangle(g.positions, idx, 3 * j))
  }

  /** A coordinate as the calculator reads it. A read past the buffer is
      `undefined`, which `new THREE.Vector3(x, y, z)` replaces by 0, its
      parameters' default. */
  function Read(p: seq<real>, k: nat): real {
    if k < |p| then p[k] else 0.0
  }

  /** The vertex built from the three reads at offset k. */
  function ReadVertex(p: seq<real>, k: nat): Vector3 {
    Vector3(Read(p, k), Read(p, k + 1), Read(p, k + 2))
  }

  /** The vertex named by index entry j. Past the index buffer the entry is
      `undefined`, `undefined * 3` is `NaN`, and the position read at `NaN`
      is `undefined` again, so the vertex is the origin. */
  function IndexedVertex(p: seq<real>, idx: seq<nat>, j: nat): Vector3 {
    if j < |idx| then ReadVertex(p, 3 * idx[j]) else Origin
  }

  /** The triangles the calculator's loops visit for any buffers: one per
      started run of nine positions, or one per started index triple. */
  function ReadTriangles(g: BufferGeometry): (ts: seq<Triangle>)
    ensures |ts| == if g.index.None? then (|g.positions| + 8) / 9 else (|g.index.value| + 2) / 3
  {
    var p := g.positions;
    match g.index
    case None =>
      seq((|p| + 8) / 9, j requires 0 <= j < (|p| + 8) / 9 =>
        Triangle(ReadVertex(p, 9 * j), ReadVertex(p, 9 * j + 3), ReadVertex(p, 9 * j + 6)))
    case Some(idx) =>
      seq((|idx| + 2) / 3, j requires 0 <= j < (|idx| + 2) / 3 =>
        Triangle(IndexedVertex(p, idx, 3 * j), IndexedVertex(p, idx, 3 * j + 1), IndexedVertex(p, idx, 3 * j + 2)))
  }

  /** On a well-formed geometry no read falls outside a buffer, so the
      calculator visits exactly the triangles of the geometry. */
  lemma ReadTrianglesWellFormed(g: BufferGeometry)
    requires WellFormed(g)
    ensures ReadTriangles(g) == Triangles(g)
  {
    var ts, us := ReadTriangles(g), Triangles(g);
    assert |ts| == |us|;
    forall j | 0 <= j < |ts| ensures ts[j] == us[j] {
      TriangleNumber(g, j);
    }
  }

  /** A position buffer padded with zeros up to whole triangles. */
  function Padded(p: seq<real>): (q: seq<real>)
    ensures |q| % 9 == 0 && |q| == 9 * ((|p| + 8) / 9)
    ensures forall k :: 0 <= k < |q| ==> q[k] == Read(p, k)
  {
    p + seq((9 - |p| % 9) % 9, _ => 0.0)
  }

  /** A buffer of whole triangles needs no padding. */
  lemma PaddedWhole(p: seq<real>)
    requires |p| % 9 == 0
    ensures Padded(p) == p
  {
    assert (9 - |p| % 9) % 9 == 0;
  }

  /** Without an index, the calculator reads a partial last run of positions
      as if the buffer were padded with zeros to whole triangles. */
  lemma ReadAsPadded(p: seq<real>)
    ensures ReadTriangles(BufferGeometry(p, None)) == Triangles(BufferGeometry(Padded(p), None))
  {
    var g, h := BufferGeometry(p, None), BufferGeometry(Padded(p), None);
    var ts, us := ReadTriangles(g), Triangles(h);
    assert |ts| == |us|;
    forall j | 0 <= j < |ts| ensures ts[j] == us[j] {
      TriangleNumber(h, j);
    }
  }

  /** What the calculator's reads amount to: the geometry's own triangles
      when it is well formed, and the zero-padded buffer's triangles when it
      has no index. */
  lemma ReadsAgree(g: BufferGeometry)
    ensures WellFormed(g) ==> ReadTriangles(g) == Triangles(g)
    ensures g.index.None? ==> ReadTriangles(g) == Triangles(BufferGeometry(Padded(g.positions), None))
  {
    if WellFormed(g) {
      ReadTrianglesWellFormed(g);
    }
    if g.index.None? {
      ReadAsPadded(g.positions);
    }
  }

  /** The signed volume of the tetrahedron spanned by the origin and t. */
  function SignedVolume(t: Triangle): real {
    Dot(t.v1, Cross(t.v2, t.v3)) / 6.0
  }

  /** One triangle's volume contribution, |v1 · (v2 × v3)| / 6. */
  function TetraVolume(t: Triangle): (v: real)
    ensures 0.0 <= v
  {
    Abs(SignedVolume(t))
  }

  /** One triangle's area, |(v2 - v1) × (v3 - v1)| / 2. */
  function TriangleArea(sqrt: real -> real, t: Triangle): (a: real)
    requires IsSqrt(sqrt)
    ensures 0.0 <= a
  {
    Length(sqrt, Cross(Sub(t.v2, t.v1), Sub(t.v3, t.v1))) / 2.0
  }

  /** The running total of volume contributions, accumulated from the first triangle. */
  function SumVolume(ts: seq<Triangle>): (v: real)
    ensures 0.0 <= v
  {
    if ts == [] then 0.0 else SumVolume(ts[..|ts| - 1]) + TetraVolume(ts[|ts| - 1])
  }

  /** The running total of triangle areas, accumulated from the first triangle. */
  function SumArea(sqrt: real -> real, ts: seq<Triangle>): (a: real)
    requires IsSqrt(sqrt)
    ensures 0.0 <= a
  {
    if ts == [] then 0.0 else SumArea(sqrt, ts[..|ts| - 1]) + TriangleArea(sqrt, ts[|ts| - 1])
  }

  function Volume(g: BufferGeometry): real
    requires WellFormed(g)
  {
    SumVolume(Triangles(g))
  }

  function SurfaceArea(sqrt: real -> real, g: BufferGeometry): real
    requires WellFormed(g) && IsSqrt(sqrt)
  {
    SumArea(sqrt, Triangles(g))
  }

  /** The volume the calculator returns for any buffers. */
  function CalculatedVolume(g: BufferGeometry): (v: real)
    ensures 0.0 <= v
    ensures WellFormed(g) ==> v == Volume(g)
    ensures g.index.None? ==> v == Volume(BufferGeometry(Padded(g.positions), None))
  {
    ReadsAgree(g);
    SumVolume(ReadTriangles(g))
  }

  /** The surface area the calculator returns for any buffers. */
  function CalculatedArea(sqrt: real -> real, g: BufferGeometry): (a: real)
    requires IsSqrt(sqrt)
    ensures 0.0 <= a
    ensures WellFormed(g) ==> a == SurfaceArea(sqrt, g)
    ensures g.index.None? ==> a == SurfaceArea(sqrt, BufferGeometry(Padded(g.positions), None))
  {
    ReadsAgree(g);
    SumArea(sqrt, ReadTriangles(g))
  }

  /** Decimal rendering of a triangle number inside a step's text. */
  function NatToString(n: nat): string {
    if n < 10 then [DigitChar(n)] else NatToString(n / 10) + [DigitChar(n % 10)]
  }

  function DigitChar(d: nat): char
    requires d < 10
  {
    "0123456789"[d]
  }

  /** The trace entry recorded for triangle j of the volume sum. */
  function VolumeStep(j: nat, result: real): CalculationStep {
    CalculationStep("V" + NatToString(j) + " = |v1 · (v2 × v3)| / 6",
                    "Volume contribution from triangle " + NatToString(j), result, [])
  }

  /** The trace entry recorded for triangle j of the area sum. */
  function AreaStep(j: nat, result: real): CalculationStep {
    CalculationStep("A" + NatToString(j) + " = |v2-v1 × v3-v1| / 2",
                    "Area of triangle " + NatToString(j), result, [])
  }

  /** The per-triangle volume trace, one entry per triangle in visiting order. */
  function VolumeTrace(ts: seq<Triangle>): (steps: seq<CalculationStep>)
    ensures |steps| == |ts|
  {
    if ts == [] then [] else VolumeTrace(ts[..|ts| - 1]) + [VolumeStep(|ts| - 1, TetraVolume(ts[|ts| - 1]))]
  }

  /** The per-triangle area trace, one entry per triangle in visiting order. */
  function AreaTrace(sqrt: real -> real, ts: seq<Triangle>): (steps: seq<CalculationStep>)
    requires IsSqrt(sqrt)
    ensures |steps| == |ts|
  {
    if ts == [] then [] else AreaTrace(sqrt, ts[..|ts| - 1]) + [AreaStep(|ts| - 1, TriangleArea(sqrt, ts[|ts| - 1]))]
  }

  lemma SumVolumeStep(ts: seq<Triangle>, k: nat)
    requires k < |ts|
    ensures SumVolume(ts[..k + 1]) == SumVolume(ts[..k]) + TetraVolume(ts[k])
    ensures VolumeTrace(ts[..k + 1]) == VolumeTrace(ts[..k]) + [VolumeStep(k, TetraVolume(ts[k]))]
  {
    assert ts[..k + 1][..k] == ts[..k];
  }

  lemma SumAreaStep(sqrt: real -> real, ts: seq<Triangle>, k: nat)
    requires IsSqrt(sqrt) && k < |ts|
    ensures SumArea(sqrt, ts[..k + 1]) == SumArea(sqrt, ts[..k]) + TriangleArea(sqrt, ts[k])
    ensures AreaTrace(sqrt, ts[..k + 1]) == AreaTrace(sqrt, ts[..k]) + [AreaStep(k, TriangleArea(sqrt, ts[k]))]
  {
    assert ts[..k + 1][..k] == ts[..k];
  }

  /** Triangle k of the visiting order, read straight from the buffers. */
  lemma TriangleNumber(g: BufferGeometry, k: nat)
    requires WellFormed(g) && k < |Triangles(g)|
    ensures g.index.None? ==> 9 * k + 8 < |g.positions| && Triangles(g)[k] == TriangleAt(g.positions, 9 * k)
    ensures g.index.Some? ==> 3 * k + 2 < |g.index.value| && Triangles(g)[k] == IndexedTriangle(g.positions, g.index.value, 3 * k)
  {
  }

  /** A loop stepping by three from 0 stops after the number of started
      triples: the first multiple of three at or past n is 3 ⌈n / 3⌉. */
  lemma TriplesTaken(n: nat, k: nat)
    requires n <= 3 * k && k <= (n + 2) / 3
    ensures k == (n + 2) / 3
  {
  }

  /** A loop stepping by three that has not reached n is at a started triple. */
  lemma TripleStarted(n: nat, k: nat)
    requires 3 * k < n
    ensures k < (n + 2) / 3
  {
  }

  /** A loop stepping by nine that has not reached n is at a started run. */
  lemma RunStarted(n: nat, k: nat)
    requires 9 * k < n
    ensures k < (n + 8) / 9
  {
  }

  /** The same for a loop stepping by nine. */
  lemma RunsTaken(n: nat, k: nat)
    requires n <= 9 * k && k <= (n + 8) / 9
    ensures k == (n + 8) / 9
  {
  }

  /** ts is the list of triangles an indexed walk reads: one per started
      index triple, triangle j through index entries 3j to 3j+2. */
  predicate IndexedWalk(p: seq<real>, idx: seq<nat>, ts: seq<Triangle>) {
    |ts| == (|idx| + 2) / 3 &&
    forall j :: 0 <= j < |ts| ==>
      ts[j] == Triangle(IndexedVertex(p, idx, 3 * j), IndexedVertex(p, idx, 3 * j + 1), IndexedVertex(p, idx, 3 * j + 2))
  }

  /** ts is the list of triangles an unindexed walk reads: one per started
      run of nine positions, triangle j at offsets 9j, 9j+3 and 9j+6. */
  predicate RunWalk(p: seq<real>, ts: seq<Triangle>) {
    |ts| == (|p| + 8) / 9 &&
    forall j :: 0 <= j < |ts| ==>
      ts[j] == Triangle(ReadVertex(p, 9 * j), ReadVertex(p, 9 * j + 3), ReadVertex(p, 9 * j + 6))
  }

  /** The triangle an indexed walk reads at counter i = 3k is triangle k. */
  lemma IndexedWalkAt(p: seq<real>, idx: seq<nat>, ts: seq<Triangle>, k: nat, i: nat)
    requires IndexedWalk(p, idx, ts) && i == 3 * k && i < |idx|
    ensures k < |ts|
    ensures ts[k] == Triangle(IndexedVertex(p, idx, i), IndexedVertex(p, idx, i + 1), IndexedVertex(p, idx, i + 2))
  {
    TripleStarted(|idx|, k);
  }

  /** The triangle an unindexed walk reads at counter i = 9k is triangle k. */
  lemma RunWalkAt(p: seq<real>, ts: seq<Triangle>, k: nat, i: nat)
    requires RunWalk(p, ts) && i == 9 * k && i < |p|
    ensures k < |ts|
    ensures ts[k] == Triangle(ReadVertex(p, i), ReadVertex(p, i + 3), ReadVertex(p, i + 6))
  {
    RunStarted(|p|, k);
  }

  /** The loop counters' step numbers: i / 3 and i / 9 at i = 3k and i = 9k. */
  lemma StepNumbers(k: nat)
    ensures (3 * k) / 3 == k && (9 * k) / 9 == k
  {
  }

  /** `calculateVolumeFromGeometry`: walks the index triples, or the runs of
      nine positions, adding each triangle's contribution |v1 · (v2 × v3)| / 6.
      Missing reads are 0. The per-triangle trace the source builds and then
      discards is the ghost `steps`. */
  method CalculateVolumeFromGeometry(g: BufferGeometry) returns (volume: real, ghost steps: seq<CalculationStep>)
    ensures volume == CalculatedVolume(g)
    ensures steps == VolumeTrace(ReadTriangles(g))
  {
    if g.index.Some? {
      volume, steps := VolumeByIndex(g.positions, g.index.value, ReadTriangles(g));
    } else {
      volume, steps := VolumeByRuns(g.positions, ReadTriangles(g));
    }
  }

  /** The indexed branch of the volume walk: one triangle per index triple. */
  method VolumeByIndex(p: seq<real>, idx: seq<nat>, ghost ts: seq<Triangle>) returns (volume: real, ghost steps: seq<CalculationStep>)
    requires IndexedWalk(p, idx, ts)
    ensures volume == SumVolume(ts)
    ensures steps == VolumeTrace(ts)
  {
    volume := 0.0;
    steps := [];
    var i := 0;
    ghost var k := 0;
    while i < |idx|
      invariant i == 3 * k && k <= |ts|
      invariant volume == SumVolume(ts[..k])
      invariant steps == VolumeTrace(ts[..k])
    {
      var t := Triangle(IndexedVertex(p, idx, i), IndexedVertex(p, idx, i + 1), IndexedVertex(p, idx, i + 2));
      IndexedWalkAt(p, idx, ts, k, i);
      var signedVolume := SignedVolume(t);
      SumVolumeStep(ts, k);
      volume := volume + Abs(signedVolume);
      StepNumbers(k);
      steps := steps + [VolumeStep(i / 3, Abs(signedVolume))];
      i, k := i + 3, k + 1;
    }
    TriplesTaken(|idx|, k);
    assert ts[..k] == ts;
  }

  /** The unindexed branch of the volume walk: one triangle per started run
      of nine positions. */
  method VolumeByRuns(p: seq<real>, ghost ts: seq<Triangle>) returns (volume: real, ghost steps: seq<CalculationStep>)
    requires RunWalk(p, ts)
    ensures volume == SumVolume(ts)
    ensures steps == VolumeTrace(ts)
  {
    volume := 0.0;
    steps := [];
    var i := 0;
    ghost var k := 0;
    while i < |p|
      invariant i == 9 * k && k <= |ts|
      invariant volume == SumVolume(ts[..k])
      invariant steps == VolumeTrace(ts[..k])
    {
      var t := Triangle(ReadVertex(p, i), ReadVertex(p, i + 3), ReadVertex(p, i + 6));
      RunWalkAt(p, ts, k, i);
      var signedVolume := SignedVolume(t);
      SumVolumeStep(ts, k);
      volume := volume + Abs(signedVolume);
      StepNumbers(k);
      steps := steps + [VolumeStep(i / 9, Abs(signedVolume))];
      i, k := i + 9, k + 1;
    }
    RunsTaken(|p|, k);
    assert ts[..k] == ts;
  }

  /** `calculateSurfaceAreaFromGeometry`: the same walk, adding each
      triangle's area |(v2 - v1) × (v3 - v1)| / 2; `sqrt` stands for the
      `Math.sqrt` inside `length()`. */
  method CalculateSurfaceAreaFromGeometry(g: BufferGeometry, sqrt: real -> real)
    returns (area: real, ghost steps: seq<CalculationStep>)
    requires IsSqrt(sqrt)
    ensures area == CalculatedArea(sqrt, g)
    ensures steps == AreaTrace(sqrt, ReadTriangles(g))
  {
    if g.index.Some? {
      area, steps := AreaByIndex(g.positions, g.index.value, sqrt, ReadTriangles(g));
    } else {
      area, steps := AreaByRuns(g.positions, sqrt, ReadTriangles(g));
    }
  }

  /** The indexed branch of the area walk. */
  method AreaByIndex(p: seq<real>, idx: seq<nat>, sqrt: real -> real, ghost ts: seq<Triangle>)
    returns (area: real, ghost steps: seq<CalculationStep>)
    requires IsSqrt(sqrt) && IndexedWalk(p, idx, ts)
    ensures area == SumArea(sqrt, ts)
    ensures steps == AreaTrace(sqrt, ts)
  {
    area := 0.0;
    steps := [];
    var i := 0;
    ghost var k := 0;
    while i < |idx|
      invariant i == 3 * k && k <= |ts|
      invariant area == SumArea(sqrt, ts[..k])
      invariant steps == AreaTrace(sqrt, ts[..k])
    {
      var t := Triangle(IndexedVertex(p, idx, i), IndexedVertex(p, idx, i + 1), IndexedVertex(p, idx, i + 2));
      IndexedWalkAt(p, idx, ts, k, i);
      var triangleArea := TriangleArea(sqrt, t);
      SumAreaStep(sqrt, ts, k);
      area := area + triangleArea;
      StepNumbers(k);
      steps := steps + [AreaStep(i / 3, triangleArea)];
      i, k := i + 3, k + 1;
    }
    TriplesTaken(|idx|, k);
    assert ts[..k] == ts;
  }

  /** The unindexed branch of the area walk. */
  method AreaByRuns(p: seq<real>, sqrt: real -> real, ghost ts: seq<Triangle>)
    returns (area: real, ghost steps: seq<CalculationStep>)
    requires IsSqrt(sqrt) && RunWalk(p, ts)
    ensures area == SumArea(sqrt, ts)
    ensures steps == AreaTrace(sqrt, ts)
  {
    area := 0.0;
    steps := [];
    var i := 0;
    ghost var k := 0;
    while i < |p|
      invariant i == 9 * k && k <= |ts|
      invariant area == SumArea(sqrt, ts[..k])
      invariant steps == AreaTrace(sqrt, ts[..k])
    {
      var t := Triangle(ReadVertex(p, i), ReadVertex(p, i + 3), ReadVertex(p, i + 6));
      RunWalkAt(p, ts, k, i);
      var triangleArea := TriangleArea(sqrt, t);
      SumAreaStep(sqrt, ts, k);
      area := area + triangleArea;
      StepNumbers(k);
      steps := steps + [AreaStep(i / 9, triangleArea)];
      i, k := i + 9, k + 1;
    }
    RunsTaken(|p|, k);
    assert ts[..k] == ts;
  }

  /** Coordinate `axis` of vertex v. */
  function Coord(p: seq<real>, v: nat, axis: nat): real
    requires axis < 3 && 3 * v + axis < |p|
  {
    p[3 * v + axis]
  }

  /** The smallest coordinate on an axis among the first n vertices. */
  function AxisMin(p: seq<real>, axis: nat, n: nat): (r: real)
    requires axis < 3 && 1 <= n && 3 * n <= |p|
    ensures forall v :: 0 <= v < n ==> r <= Coord(p, v, axis)
    ensures exists v :: 0 <= v < n && r == Coord(p, v, axis)
  {
    if n == 1 then Coord(p, 0, axis)
    else
      var m := AxisMin(p, axis, n - 1);
      if Coord(p, n - 1, axis) < m then Coord(p, n - 1, axis) else m
  }

  /** The largest coordinate on an axis among the first n vertices. */
  function AxisMax(p: seq<real>, axis: nat, n: nat): (r: real)
    requires axis < 3 && 1 <= n && 3 * n <= |p|
    ensures forall v :: 0 <= v < n ==> Coord(p, v, axis) <= r
    ensures exists v :: 0 <= v < n && r == Coord(p, v, axis)
  {
    if n == 1 then Coord(p, 0, axis)
    else
      var m := AxisMax(p, axis, n - 1);
      if m < Coord(p, n - 1, axis) then Coord(p, n - 1, axis) else m
  }

  /** `computeBoundingBox` followed by `getSize`: the per-axis extent of every
      vertex in the position buffer, and zero for an empty buffer. */
  function BoundingSize(p: seq<real>): (d: Vector3)
    requires |p| % 3 == 0
    ensures 0.0 <= d.x && 0.0 <= d.y && 0.0 <= d.z
    ensures p == [] ==> d == Origin
  {
    var n := |p| / 3;
    if n == 0 then Origin
    else Vector3(AxisMax(p, 0, n) - AxisMin(p, 0, n),
                 AxisMax(p, 1, n) - AxisMin(p, 1, n),
                 AxisMax(p, 2, n) - AxisMin(p, 2, n))
  }

  /** Weight and cost derived from volume and material, as the calculator derives them. */
  predicate PricedWith(m: ModelMetrics, material: Material) {
    m.weight == m.volume * material.density && m.cost == m.weight * material.cost
  }

  /** A buffer of whole triangles is a buffer of whole vertices. */
  lemma WholeVertices(g: BufferGeometry)
    requires WellFormed(g)
    ensures |g.positions| % 3 == 0
  {
    if g.index.None? {
      NineIsThreeTimesThree(|g.positions|);
    }
  }

  lemma NineIsThreeTimesThree(n: nat)
    requires n % 9 == 0
    ensures n % 3 == 0
  {
    assert n == 3 * (3 * (n / 9));
  }

  /** Metrics whose weight and cost are derived from the volume and the material. */
  function Priced(volume: real, surfaceArea: real, dimensions: Vector3, material: Material): (m: ModelMetrics)
    ensures PricedWith(m, material)
    ensures m.volume == volume && m.surfaceArea == surfaceArea && m.dimensions == dimensions
    ensures 0.0 <= volume && 0.0 <= material.density && 0.0 <= material.cost ==> 0.0 <= m.weight && 0.0 <= m.cost
  {
    var weight := volume * material.density;
    var m := ModelMetrics(volume, surfaceArea, weight, weight * material.cost, dimensions);
    if 0.0 <= volume && 0.0 <= material.density && 0.0 <= material.cost then
      ProductNonNegative(volume, material.density);
      ProductNonNegative(weight, material.cost);
      m
    else m
  }

  /** The metrics `calculateMetricsFromGeometry` returns for a geometry and material. */
  function MetricsOf(sqrt: real -> real, g: BufferGeometry, material: Material): (m: ModelMetrics)
    requires |g.positions| % 3 == 0 && IsSqrt(sqrt)
    ensures PricedWith(m, material)
    ensures m.volume == CalculatedVolume(g) && m.surfaceArea == CalculatedArea(sqrt, g)
    ensures WellFormed(g) ==> m.volume == Volume(g) && m.surfaceArea == SurfaceArea(sqrt, g)
    ensures 0.0 <= m.volume && 0.0 <= m.surfaceArea
    ensures 0.0 <= m.dimensions.x && 0.0 <= m.dimensions.y && 0.0 <= m.dimensions.z
    ensures 0.0 <= material.density && 0.0 <= material.cost ==> 0.0 <= m.weight && 0.0 <= m.cost
  {
    Priced(CalculatedVolume(g), CalculatedArea(sqrt, g), BoundingSize(g.positions), material)
  }

  /** `calculateMetricsFromGeometry`: volume and area by the two walks, then
      weight = volume × density and cost = weight × unit cost. */
  method CalculateMetricsFromGeometry(g: BufferGeometry, material: Material, sqrt: real -> real)
    returns (metrics: ModelMetrics)
    requires |g.positions| % 3 == 0 && IsSqrt(sqrt)
    ensures metrics == MetricsOf(sqrt, g, material)
  {
    var volume, _ := CalculateVolumeFromGeometry(g);
    var surfaceArea, _ := CalculateSurfaceAreaFromGeometry(g, sqrt);
    var dimensions := BoundingSize(g.positions);
    metrics := Priced(volume, surfaceArea, dimensions, material);
  }
}
