/** The `Dashboard` component's logic: choosing a loader from the file name,
    measuring what it loads (a group is first combined into one geometry),
    and guarding the report export. */
module Dashboard {
  import opened Wrappers
  import opened Three
  import opened Types
  import opened Metrics
  import MetricLaws
  import Optimizer

  // ---- file name dispatch ----

  /** `name.split('.').pop()`: the text after the last dot. */
  function AfterLastDot(s: string): string {
    if s == [] || s[|s| - 1] == '.' then []
    else AfterLastDot(s[..|s| - 1]) + [s[|s| - 1]]
  }

  /** The text after the last dot is the longest dot-free tail of the name,
      which is the whole name when it has no dot. */
  lemma {:induction false} DotFreeTail(s: string)
    ensures |AfterLastDot(s)| <= |s| && AfterLastDot(s) == s[|s| - |AfterLastDot(s)|..]
    ensures '.' !in AfterLastDot(s)
    ensures |AfterLastDot(s)| < |s| ==> s[|s| - |AfterLastDot(s)| - 1] == '.'
  {
    if s != [] && s[|s| - 1] != '.' {
      var p := s[..|s| - 1];
      DotFreeTail(p);
      var e := AfterLastDot(p);
      assert AfterLastDot(s) == e + [s[|s| - 1]];
      assert s[|s| - |e| - 1..] == p[|p| - |e|..] + [s[|s| - 1]];
    }
  }

  /** `toLowerCase` on one character, for the ASCII letters. */
  function LowerChar(c: char): (d: char)
    ensures !('A' <= d <= 'Z')
  {
    if 'A' <= c <= 'Z' then (c as int - 'A' as int + 'a' as int) as char else c
  }

  function LowerCase(s: string): string {
    seq(|s|, i requires 0 <= i < |s| => LowerChar(s[i]))
  }

  /** The extension the dashboard switches on: the dot-free tail of the
      name after its last dot, lower-cased, so the switch's lower-case
      labels match whatever case the file name uses. */
  function Extension(name: string): (e: string)
    ensures |e| <= |name| && e == LowerCase(name[|name| - |e|..])
    ensures '.' !in e
    ensures |e| < |name| ==> name[|name| - |e| - 1] == '.'
    ensures forall i :: 0 <= i < |e| ==> !('A' <= e[i] <= 'Z')
  {
    DotFreeTail(name);
    LowerCaseKeepsDots(AfterLastDot(name));
    LowerCase(AfterLastDot(name))
  }

  /** Lower-casing turns no other character into a dot. */
  lemma LowerCaseKeepsDots(s: string)
    requires '.' !in s
    ensures '.' !in LowerCase(s)
  {
    forall i | 0 <= i < |s| ensures LowerCase(s)[i] != '.' {
      assert s[i] != '.';
    }
  }

  /** A name ending in `.ext` has extension `ext`, lower-cased, whatever
      dots come before. */
  lemma ExtensionOfDottedName(base: string, ext: string)
    requires '.' !in ext
    ensures Extension(base + "." + ext) == LowerCase(ext)
  {
    var s := base + "." + ext;
    DotFreeTail(s);
    var e := AfterLastDot(s);
    assert s[|s| - |ext| - 1] == '.';
    assert |e| == |ext|;
    assert e == s[|s| - |ext|..] == ext;
  }

  /** A name without a dot is its own extension. */
  lemma ExtensionOfUndottedName(name: string)
    requires '.' !in name
    ensures Extension(name) == LowerCase(name)
  {
    DotFreeTail(name);
    var e := AfterLastDot(name);
    assert |e| == |name|;
    assert e == name[0..] == name;
  }

  /** The four loaders of `FileHandler`. */
  datatype Loader = DxfLoader | ObjLoader | StlLoader | GltfLoader

  /** The `switch` on the extension; `None` is the unsupported-format
      error. A loader is picked exactly for the extensions the file chooser
      offers. */
  function Route(ext: string): (r: Option<Loader>)
    ensures r.Some? <==> "." + ext in Accepted
  {
    AcceptedTails(ext);
    if ext == "dxf" then Some(DxfLoader)
    else if ext == "obj" then Some(ObjLoader)
    else if ext == "stl" then Some(StlLoader)
    else if ext == "gltf" || ext == "glb" || ext == "blend" then Some(GltfLoader)
    else None
  }

  /** The file chooser's `accept` list. */
  const Accepted: seq<string> := [".dxf", ".obj", ".stl", ".gltf", ".glb", ".blend"]

  /** The accepted names are the six extensions, each after a dot. */
  lemma AcceptedTails(ext: string)
    ensures "." + ext in Accepted <==> ext in ["dxf", "obj", "stl", "gltf", "glb", "blend"]
  {
    var d := "." + ext;
    assert d[1..] == ext;
    if ext in ["dxf", "obj", "stl", "gltf", "glb", "blend"] {
      assert d == Accepted[0] || d == Accepted[1] || d == Accepted[2]
          || d == Accepted[3] || d == Accepted[4] || d == Accepted[5];
    }
  }

  // ---- combining a group into one geometry ----

  /** The position array one traversed object contributes as written: a
      mesh's raw position array, whatever its index; anything else, nothing. */
  function OwnPositions(o: Object3D): seq<real> {
    match o.kind
    case MeshObject(g) => g.positions
    case _ => []
  }

  function MeshPositions(os: seq<Object3D>): seq<real> {
    if os == [] then [] else MeshPositions(os[..|os| - 1]) + OwnPositions(os[|os| - 1])
  }

  /** The combined geometry as the component builds it: every mesh's raw
      position array in traversal order, with no index. */
  function Flatten(root: Object3D): (g: BufferGeometry)
    ensures g.index.None?
  {
    BufferGeometry(MeshPositions(Traverse(root)), None)
  }

  /** Flattening keeps traversal order: the buffer for a list of objects is
      the raw buffers of its parts laid end to end. */
  lemma {:induction false} PositionsAppend(os: seq<Object3D>, ps: seq<Object3D>)
    ensures MeshPositions(os + ps) == MeshPositions(os) + MeshPositions(ps)
    decreases |ps|
  {
    if ps == [] {
      assert os + ps == os;
    } else {
      var n := |ps| - 1;
      var all := os + ps;
      assert all[..|all| - 1] == os + ps[..n];
      assert all[|all| - 1] == ps[n];
      PositionsAppend(os, ps[..n]);
      var left, mid, right := MeshPositions(os), MeshPositions(ps[..n]), OwnPositions(ps[n]);
      assert (left + mid) + right == left + (mid + right);
    }
  }

  /** Lines, groups and other objects contribute no positions. */
  lemma {:induction false} NoMeshNoPositions(os: seq<Object3D>)
    requires forall o :: o in os ==> !o.kind.MeshObject?
    ensures MeshPositions(os) == []
  {
    if os != [] {
      NoMeshNoPositions(os[..|os| - 1]);
    }
  }

  /** The flattened buffer holds whole vertices (n = 3), which makes the
      group measurable, or whole triangles (n = 9), when every mesh's raw
      buffer does, indexed or not. */
  lemma {:induction false} WholeBuffersMeasurable(os: seq<Object3D>, n: nat)
    requires n == 3 || n == 9
    requires forall i :: 0 <= i < |os| && os[i].kind.MeshObject? ==> |os[i].kind.geometry.positions| % n == 0
    ensures |MeshPositions(os)| % n == 0
  {
    if os != [] {
      var prefix, last := os[..|os| - 1], os[|os| - 1];
      assert forall i :: 0 <= i < |prefix| ==> prefix[i] == os[i];
      WholeBuffersMeasurable(prefix, n);
      WholeRuns(|MeshPositions(prefix)|, |OwnPositions(last)|, n);
    }
  }

  /** A mesh without an index whose buffer holds whole triangles, as the
      OBJ and STL loaders produce; any other object is fine as it is. */
  predicate RawMesh(o: Object3D) {
    o.kind.MeshObject? ==> o.kind.geometry.index.None? && |o.kind.geometry.positions| % 9 == 0
  }

  predicate RawMeshes(os: seq<Object3D>) {
    forall i :: 0 <= i < |os| ==> RawMesh(os[i])
  }

  /** Every mesh in the list has a measurable geometry. */
  predicate MeshesWellFormed(os: seq<Object3D>) {
    forall i :: 0 <= i < |os| ==> MeshOk(os[i])
  }

  /** A mesh has a measurable geometry; any other object is fine as it is. */
  predicate MeshOk(o: Object3D) {
    o.kind.MeshObject? ==> WellFormed(o.kind.geometry)
  }

  /** A geometry's triangles as a plain buffer: its positions when it has no
      index, its vertices read through the index otherwise. */
  function TriangleSoup(g: BufferGeometry): (p: seq<real>)
    requires WellFormed(g)
    ensures |p| % 9 == 0
    ensures Triangles(BufferGeometry(p, None)) == Triangles(g)
  {
    match g.index
    case None => g.positions
    case Some(idx) =>
      MetricLaws.DeIndexedTriangles(g);
      MetricLaws.DeIndex(g.positions, idx)
  }

  /** The triangles one traversed object contributes. */
  function OwnSoup(o: Object3D): (p: seq<real>)
    requires o.kind.MeshObject? ==> WellFormed(o.kind.geometry)
    ensures |p| % 9 == 0
  {
    match o.kind
    case MeshObject(g) => TriangleSoup(g)
    case _ => []
  }

  function SoupPositions(os: seq<Object3D>): (p: seq<real>)
    requires MeshesWellFormed(os)
    ensures |p| % 9 == 0
  {
    if os == [] then []
    else
      var prefix, last := os[..|os| - 1], os[|os| - 1];
      assert MeshOk(last) && MeshesWellFormed(prefix);
      var p, q := SoupPositions(prefix), OwnSoup(last);
      WholeRuns(|p|, |q|, 9);
      p + q
  }

  /** Two buffers of whole vertices (n = 3) or whole triangles (n = 9) laid
      end to end hold whole ones. */
  lemma WholeRuns(a: nat, b: nat, n: nat)
    requires (n == 3 || n == 9) && a % n == 0 && b % n == 0
    ensures (a + b) % n == 0
  {
    if n == 3 {
      assert a + b == 3 * (a / 3 + b / 3);
    } else {
      assert a + b == 9 * (a / 9 + b / 9);
    }
  }

  /** The corrected combination: every mesh's triangles, read through its
      index where it has one, in traversal order and with no index. */
  function Combine(root: Object3D): (g: BufferGeometry)
    requires MeshesWellFormed(Traverse(root))
    ensures g.index.None? && WellFormed(g)
  {
    BufferGeometry(SoupPositions(Traverse(root)), None)
  }

  /** The volume of every mesh in the list, summed. */
  function MeshVolume(os: seq<Object3D>): real
    requires MeshesWellFormed(os)
  {
    if os == [] then 0.0
    else MeshVolume(os[..|os| - 1]) + match os[|os| - 1].kind case MeshObject(g) => Volume(g) case _ => 0.0
  }

  /** The surface area of every mesh in the list, summed. */
  function MeshArea(sqrt: real -> real, os: seq<Object3D>): real
    requires MeshesWellFormed(os) && IsSqrt(sqrt)
  {
    if os == [] then 0.0
    else MeshArea(sqrt, os[..|os| - 1]) + match os[|os| - 1].kind case MeshObject(g) => SurfaceArea(sqrt, g) case _ => 0.0
  }

  /** Combining keeps traversal order: the buffer for a list of objects is
      the buffers for its parts laid end to end. */
  lemma {:induction false} SoupAppend(os: seq<Object3D>, ps: seq<Object3D>)
    requires MeshesWellFormed(os + ps)
    ensures MeshesWellFormed(os) && MeshesWellFormed(ps)
    ensures SoupPositions(os + ps) == SoupPositions(os) + SoupPositions(ps)
    decreases |ps|
  {
    MeshesSplit(os, ps);
    if ps == [] {
      assert os + ps == os;
    } else {
      var n := |ps| - 1;
      var all := os + ps;
      assert all[..|all| - 1] == os + ps[..n];
      assert all[|all| - 1] == ps[n];
      SoupLast(all);
      SoupLast(ps);
      SoupAppend(os, ps[..n]);
      var left, mid, right := SoupPositions(os), SoupPositions(ps[..n]), OwnSoup(ps[n]);
      assert (left + mid) + right == left + (mid + right);
    }
  }

  lemma MeshesSplit(os: seq<Object3D>, ps: seq<Object3D>)
    requires MeshesWellFormed(os + ps)
    ensures MeshesWellFormed(os) && MeshesWellFormed(ps)
  {
    assert forall i :: 0 <= i < |os| ==> (os + ps)[i] == os[i];
    assert forall i :: 0 <= i < |ps| ==> (os + ps)[|os| + i] == ps[i];
  }

  /** One unfolding of SoupPositions: the last object's triangles come last. */
  lemma SoupLast(os: seq<Object3D>)
    requires MeshesWellFormed(os) && os != []
    ensures MeshesWellFormed(os[..|os| - 1])
    ensures SoupPositions(os) == SoupPositions(os[..|os| - 1]) + OwnSoup(os[|os| - 1])
  {
  }

  /** Lines, groups and other objects contribute no triangles. */
  lemma {:induction false} NoMeshNoSoup(os: seq<Object3D>)
    requires forall o :: o in os ==> !o.kind.MeshObject?
    ensures MeshesWellFormed(os) && SoupPositions(os) == []
  {
    if os != [] {
      NoMeshNoSoup(os[..|os| - 1]);
    }
  }

  /** The combined geometry measures exactly the meshes' own volumes and
      areas, summed over the traversal. */
  lemma {:induction false} SoupMeasures(sqrt: real -> real, os: seq<Object3D>)
    requires IsSqrt(sqrt) && MeshesWellFormed(os)
    ensures Volume(BufferGeometry(SoupPositions(os), None)) == MeshVolume(os)
    ensures SurfaceArea(sqrt, BufferGeometry(SoupPositions(os), None)) == MeshArea(sqrt, os)
  {
    if os != [] {
      var prefix, last := os[..|os| - 1], os[|os| - 1];
      SoupMeasures(sqrt, prefix);
      MetricLaws.JoinedBuffers(sqrt, SoupPositions(prefix), OwnSoup(last));
      match last.kind {
        case MeshObject(g) =>
        case _ =>
          assert Triangles(BufferGeometry([], None)) == [];
      }
    }
  }

  /** A group is measured as the sum of its meshes. */
  lemma CombinedMeasures(sqrt: real -> real, root: Object3D)
    requires IsSqrt(sqrt) && MeshesWellFormed(Traverse(root))
    ensures Volume(Combine(root)) == MeshVolume(Traverse(root))
    ensures SurfaceArea(sqrt, Combine(root)) == MeshArea(sqrt, Traverse(root))
  {
    SoupMeasures(sqrt, Traverse(root));
  }

  /** Without indices the two combinations agree: each mesh's raw buffer
      already is its triangles. */
  lemma {:induction false} RawMeshesSoup(os: seq<Object3D>)
    requires RawMeshes(os)
    ensures MeshesWellFormed(os) && MeshPositions(os) == SoupPositions(os)
  {
    if os != [] {
      var prefix, last := os[..|os| - 1], os[|os| - 1];
      assert RawMesh(last);
      assert forall i :: 0 <= i < |prefix| ==> prefix[i] == os[i];
      RawMeshesSoup(prefix);
      assert MeshesWellFormed(os) by {
        forall i | 0 <= i < |os| ensures MeshOk(os[i]) {
          if i < |prefix| {
            assert os[i] == prefix[i] && MeshOk(prefix[i]);
          }
        }
      }
      SoupLast(os);
    }
  }

  /** A group of unindexed meshes (the OBJ case) is flattened exactly as the
      corrected combination combines it, so it measures the sum of its meshes. */
  lemma FlattenIsCombine(sqrt: real -> real, root: Object3D)
    requires IsSqrt(sqrt) && RawMeshes(Traverse(root))
    ensures MeshesWellFormed(Traverse(root)) && Flatten(root) == Combine(root)
    ensures WellFormed(Flatten(root))
    ensures Volume(Flatten(root)) == MeshVolume(Traverse(root))
    ensures SurfaceArea(sqrt, Flatten(root)) == MeshArea(sqrt, Traverse(root))
  {
    RawMeshesSoup(Traverse(root));
    CombinedMeasures(sqrt, root);
  }

  /** `positions.push(...array)` passes every coordinate of a mesh as one
      argument, and an engine refuses a call with more arguments than its
      limit with a `RangeError`. The limit differs between engines, so it is
      a parameter. */
  predicate Spreads(os: seq<Object3D>, argLimit: nat) {
    forall i :: 0 <= i < |os| && os[i].kind.MeshObject? ==> |os[i].kind.geometry.positions| <= argLimit
  }

  /** The traversal callback pushing each mesh's raw position array into one
      array, which becomes the position attribute of a new geometry; a mesh
      too large to spread into one call throws. */
  method CombineMeshes(root: Object3D, argLimit: nat) returns (combined: Option<BufferGeometry>)
    ensures combined.Some? <==> Spreads(Traverse(root), argLimit)
    ensures combined.Some? ==> combined.value == Flatten(root)
  {
    var nodes := Traverse(root);
    var positions: seq<real> := [];
    var i := 0;
    while i < |nodes|
      invariant i <= |nodes|
      invariant Spreads(nodes[..i], argLimit)
      invariant positions == MeshPositions(nodes[..i])
    {
      var child := nodes[i];
      assert nodes[..i + 1][..i] == nodes[..i] && nodes[..i + 1][i] == child;
      if child.kind.MeshObject? {
        if |child.kind.geometry.positions| > argLimit {
          return None;
        }
        positions := positions + child.kind.geometry.positions;
      }
      assert forall j :: 0 <= j < i ==> nodes[..i + 1][j] == nodes[..i][j];
      i := i + 1;
    }
    assert nodes[..i] == nodes;
    combined := Some(BufferGeometry(positions, None));
  }

  /** One triangle drawn twice through an index. */
  function TwiceDrawn(t: Triangle): (g: BufferGeometry)
    ensures WellFormed(g)
  {
    BufferGeometry([t.v1.x, t.v1.y, t.v1.z, t.v2.x, t.v2.y, t.v2.z, t.v3.x, t.v3.y, t.v3.z], Some([0, 1, 2, 0, 1, 2]))
  }

  lemma TwiceDrawnVolume(t: Triangle)
    ensures Triangles(TwiceDrawn(t)) == [t, t]
    ensures Volume(TwiceDrawn(t)) == 2.0 * TetraVolume(t)
  {
    var g := TwiceDrawn(t);
    TriangleNumber(g, 0);
    TriangleNumber(g, 1);
    assert Triangles(g) == [t, t];
    assert [t, t][..1] == [t] && [t][..0] == [];
    assert SumVolume([t]) == SumVolume([]) + TetraVolume(t);
    assert SumVolume([t, t]) == SumVolume([t]) + TetraVolume(t);
  }

  lemma RawPositionsVolume(t: Triangle)
    ensures WellFormed(BufferGeometry(TwiceDrawn(t).positions, None))
    ensures Volume(BufferGeometry(TwiceDrawn(t).positions, None)) == TetraVolume(t)
  {
    var g := BufferGeometry(TwiceDrawn(t).positions, None);
    TriangleNumber(g, 0);
    assert Triangles(g) == [t];
    assert [t][..0] == [];
    assert SumVolume([t]) == SumVolume([]) + TetraVolume(t);
  }

  /** A scene holding just one mesh. */
  function Lone(g: BufferGeometry): Object3D {
    Object3D(MeshObject(g), [])
  }

  /** A lone mesh is flattened into its raw positions, whatever its index. */
  lemma LoneMeshFlatten(g: BufferGeometry)
    ensures Traverse(Lone(g)) == [Lone(g)]
    ensures Flatten(Lone(g)) == BufferGeometry(g.positions, None)
  {
    var root := Lone(g);
    assert Traverse(root) == [root];
    assert [root][..0] == [];
    assert MeshPositions([root]) == [] + g.positions == g.positions;
  }

  /** The corrected combination of a lone mesh measures the mesh's own triangles. */
  lemma LoneMesh(sqrt: real -> real, g: BufferGeometry)
    requires IsSqrt(sqrt) && WellFormed(g)
    ensures Volume(Combine(Lone(g))) == Volume(g)
    ensures SurfaceArea(sqrt, Combine(Lone(g))) == SurfaceArea(sqrt, g)
  {
    var root := Lone(g);
    LoneMeshFlatten(g);
    assert [root][..0] == [];
    assert MeshVolume([root]) == 0.0 + Volume(g);
    assert MeshArea(sqrt, [root]) == 0.0 + SurfaceArea(sqrt, g);
    CombinedMeasures(sqrt, root);
  }

  /** As written, a group whose one mesh draws a triangle twice through its
      index is measured from the raw positions, so only once: for any
      triangle that spans volume the group measures half the mesh's own
      volume, where the corrected combination measures all of it (LoneMesh). */
  lemma FlattenIgnoresIndex(t: Triangle)
    requires SignedVolume(t) != 0.0
    ensures Flatten(Lone(TwiceDrawn(t))) == BufferGeometry(TwiceDrawn(t).positions, None)
    ensures WellFormed(Flatten(Lone(TwiceDrawn(t))))
    ensures Volume(Flatten(Lone(TwiceDrawn(t)))) == Volume(TwiceDrawn(t)) / 2.0 != Volume(TwiceDrawn(t))
  {
    TwiceDrawnVolume(t);
    RawPositionsVolume(t);
    LoneMeshFlatten(TwiceDrawn(t));
  }

  // ---- the component ----

  /** The geometry measured for a loaded value: the value itself, or the
      group flattened. */
  function Measured(v: SceneValue): BufferGeometry {
    match v
    case Geometry(g) => g
    case Group(root) => Flatten(root)
  }

  /** What the bounding box needs of the measured buffer: whole vertices. */
  predicate Measurable(v: SceneValue) {
    |Measured(v).positions| % 3 == 0
  }

  /** The measurement goes through: a single geometry always does, a group
      when every mesh spreads into one `push`. */
  predicate Completes(v: SceneValue, argLimit: nat) {
    v.Group? ==> Spreads(Traverse(v.root), argLimit)
  }

  /** What an import yields: nothing without a file, for an unsupported
      extension, or when the loader rejects. */
  function Imported(file: Option<string>, load: Loader -> Result<SceneValue>): Option<SceneValue> {
    match file
    case None => None
    case Some(name) =>
      match Route(Extension(name))
      case None => None
      case Some(loader) =>
        match load(loader)
        case Err(_) => None
        case Ok(v) => Some(v)
  }

  /** A loaded geometry is measured as itself and a group as its flattened
      buffer; a group of unindexed meshes is measurable and is measured as
      the sum of its meshes. */
  lemma MeasuredValue(sqrt: real -> real, v: SceneValue)
    requires IsSqrt(sqrt)
    ensures v.Geometry? ==> Measured(v) == v.geometry
    ensures v.Group? ==> Measured(v) == Flatten(v.root)
    ensures v.Group? && RawMeshes(Traverse(v.root)) ==>
              Measurable(v)
              && CalculatedVolume(Measured(v)) == MeshVolume(Traverse(v.root))
              && CalculatedArea(sqrt, Measured(v)) == MeshArea(sqrt, Traverse(v.root))
  {
    if v.Group? && RawMeshes(Traverse(v.root)) {
      FlattenIsCombine(sqrt, v.root);
      NineIsThreeTimesThree(|Flatten(v.root).positions|);
    }
  }

  /** The loading half of `handleFileImport`: the extension picks the
      loader, and an unsupported extension or a rejected load yields nothing. */
  method LoadFile(file: Option<string>, load: Loader -> Result<SceneValue>) returns (loaded: Option<SceneValue>)
    ensures loaded == Imported(file, load)
  {
    if file.None? {
      return None;
    }
    var extension := Extension(file.value);
    var loader := Route(extension);
    if loader.None? {
      return None;
    }
    var result := load(loader.value);
    if result.Err? {
      return None;
    }
    return Some(result.value);
  }

  /** The measuring half of `handleFileImport`: a geometry is measured as it
      is, a group through the geometry its meshes' raw buffers flatten into. */
  method MeasureValue(v: SceneValue, material: Material, sqrt: real -> real, argLimit: nat)
    returns (metrics: Option<ModelMetrics>)
    requires IsSqrt(sqrt) && (Completes(v, argLimit) ==> Measurable(v))
    ensures metrics.Some? <==> Completes(v, argLimit)
    ensures metrics.Some? ==> metrics.value == MetricsOf(sqrt, Measured(v), material)
  {
    match v {
      case Geometry(g) =>
        var m := CalculateMetricsFromGeometry(g, material, sqrt);
        metrics := Some(m);
      case Group(root) =>
        var combined := CombineMeshes(root, argLimit);
        if combined.None? {
          return None;
        }
        var m := CalculateMetricsFromGeometry(combined.value, material, sqrt);
        metrics := Some(m);
    }
  }

  /** The component's state. */
  class DashboardState {
    var activeModel: Option<ModelMetrics>
    var modelGeometry: Option<SceneValue>
    var material: Material
    var constraints: OptimizationConstraints

    constructor ()
      ensures activeModel == None && modelGeometry == None
      ensures material == DefaultMaterial && constraints == DefaultConstraints
    {
      activeModel := None;
      modelGeometry := None;
      material := DefaultMaterial;
      constraints := DefaultConstraints;
    }

    /** `handleFileImport`: picks the loader from the extension, stores what
        it loads, then stores the metrics measured from it with the current
        material. No file, an unsupported extension or a rejected load change
        nothing; a `RangeError` while flattening a group comes after the
        loaded value is stored, so the previous metrics stay beside it. */
    method HandleFileImport(file: Option<string>, load: Loader -> Result<SceneValue>, sqrt: real -> real, argLimit: nat)
      requires IsSqrt(sqrt)
      requires var i := Imported(file, load); i.Some? && Completes(i.value, argLimit) ==> Measurable(i.value)
      modifies this
      ensures material == old(material) && constraints == old(constraints)
      ensures var i := Imported(file, load);
        i.None? ==> modelGeometry == old(modelGeometry) && activeModel == old(activeModel)
      ensures var i := Imported(file, load);
        i.Some? ==> modelGeometry == i
      ensures var i := Imported(file, load);
        i.Some? && !Completes(i.value, argLimit) ==> activeModel == old(activeModel)
      ensures var i := Imported(file, load);
        i.Some? && Completes(i.value, argLimit) ==> activeModel == Some(MetricsOf(sqrt, Measured(i.value), material))
    {
      var loaded := LoadFile(file, load);
      if loaded.None? {
        return;
      }
      var geometry := loaded.value;
      modelGeometry := Some(geometry);
      var metrics := MeasureValue(geometry, material, sqrt, argLimit);
      if metrics.None? {
        return;
      }
      activeModel := metrics;
    }

    /** `handleExportReport`: nothing without an active model; otherwise the
        optimisation the report is generated from. */
    method HandleExportReport() returns (r: Option<OptimizationResult>)
      ensures r.None? <==> activeModel.None?
      ensures activeModel.Some? ==> r == Some(Optimizer.OptimizeModel(activeModel.value, constraints, material))
    {
      if activeModel.None? {
        return None;
      }
      r := Some(Optimizer.OptimizeModel(activeModel.value, constraints, material));
    }

    /** An edit of the material panel; the active model keeps the metrics
        it was measured with. */
    method SetMaterial(m: Material)
      modifies this
      ensures material == m
      ensures activeModel == old(activeModel) && modelGeometry == old(modelGeometry) && constraints == old(constraints)
    {
      material := m;
    }

    /** An edit of the constraints panel. */
    method SetConstraints(c: OptimizationConstraints)
      modifies this
      ensures constraints == c
      ensures activeModel == old(activeModel) && modelGeometry == old(modelGeometry) && material == old(material)
    {
      constraints := c;
    }
  }
}
