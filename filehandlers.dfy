/** The DXF side of `FileHandler`: exporting a buffer geometry as 3D faces
    and turning the entities of a parsed DXF file into scene children. */
module FileHandlers {
  import opened Wrappers
  import opened Three
  import opened Metrics

  // ---- exportDXF ----

  /** A `3DFACE` entity as handed to the DXF writer: four corners. */
  datatype Face3D = Face3D(a: Vector3, b: Vector3, c: Vector3, d: Vector3)

  /** The DXF writer, reduced to the entities added to it so far. */
  class DxfWriter {
    var faces: seq<Face3D>

    constructor ()
      ensures faces == []
    {
      faces := [];
    }

    /** `add3DFace`: appends one face. */
    method Add3DFace(face: Face3D)
      modifies this
      ensures faces == old(faces) + [face]
    {
      faces := faces + [face];
    }
  }

  /** The face written for a triangle: its three corners, the third repeated as the fourth. */
  function FaceOf(t: Triangle): (f: Face3D)
    ensures f.d == f.c
    ensures Triangle(f.a, f.b, f.c) == t
  {
    Face3D(t.v1, t.v2, t.v3, t.v3)
  }

  /** The faces written for a buffer of whole triangles, in buffer order. */
  function Faces(p: seq<real>): (fs: seq<Face3D>)
    requires |p| % 9 == 0
    ensures |fs| == |p| / 9
    decreases |p|
  {
    if p == [] then [] else Faces(p[..|p| - 9]) + [FaceOf(TriangleAt(p, |p| - 9))]
  }

  /** The nine coordinates of a face's first three corners. */
  function Corners(f: Face3D): (q: seq<real>)
    ensures |q| == 9
  {
    [f.a.x, f.a.y, f.a.z, f.b.x, f.b.y, f.b.z, f.c.x, f.c.y, f.c.z]
  }

  /** The position buffer read back from a list of faces. */
  function FacePositions(fs: seq<Face3D>): (p: seq<real>)
    ensures |p| == 9 * |fs|
  {
    if fs == [] then [] else FacePositions(fs[..|fs| - 1]) + Corners(fs[|fs| - 1])
  }

  lemma FacesStep(p: seq<real>, i: nat)
    requires i % 9 == 0 && i + 9 <= |p|
    ensures Faces(p[..i + 9]) == Faces(p[..i]) + [FaceOf(TriangleAt(p, i))]
  {
    var q := p[..i + 9];
    assert q[..|q| - 9] == p[..i];
    assert TriangleAt(q, i) == TriangleAt(p, i);
  }

  /** Face j is the triangle of the nine numbers at 9j. */
  lemma {:induction false} FaceNumber(p: seq<real>, j: nat)
    requires |p| % 9 == 0 && j < |p| / 9
    ensures Faces(p)[j] == FaceOf(TriangleAt(p, 9 * j))
    decreases |p|
  {
    var n := |p| - 9;
    if j < n / 9 {
      FaceNumber(p[..n], j);
      assert TriangleAt(p[..n], 9 * j) == TriangleAt(p, 9 * j);
    }
  }

  /** Reading the first three corners of every exported face back gives the
      position buffer exactly: export loses and reorders nothing. */
  lemma {:induction false} FacesRoundTrip(p: seq<real>)
    requires |p| % 9 == 0
    ensures FacePositions(Faces(p)) == p
    decreases |p|
  {
    if p != [] {
      var n := |p| - 9;
      var fs := Faces(p);
      FacesRoundTrip(p[..n]);
      assert fs[..|fs| - 1] == Faces(p[..n]);
      assert Corners(fs[|fs| - 1]) == p[n..];
      assert p[..n] + p[n..] == p;
    }
  }

  /** Without an index buffer, the exported faces are the triangles the
      metric calculator measures, one face per triangle. */
  lemma FacesAreTriangles(g: BufferGeometry, j: nat)
    requires WellFormed(g) && g.index.None? && j < |Triangles(g)|
    ensures |Faces(g.positions)| == |Triangles(g)|
    ensures Faces(g.positions)[j] == FaceOf(Triangles(g)[j])
  {
    TriangleNumber(g, j);
    FaceNumber(g.positions, j);
  }

  /** `exportDXF`: one face per started run of nine positions, in buffer
      order, a missing coordinate of the last run read as 0; the index
      buffer, if any, is not read. The writer's `stringify` is not part of
      this model, so the faces added to it are the result. */
  method ExportDXF(g: BufferGeometry) returns (faces: seq<Face3D>)
    ensures faces == Faces(Padded(g.positions))
    ensures |g.positions| % 9 == 0 ==> faces == Faces(g.positions)
    ensures forall f :: f in faces ==> f.d == f.c
  {
    var writer := new DxfWriter();
    var positions := g.positions;
    ghost var q := Padded(positions);
    var i := 0;
    ghost var k := 0;
    while i < |positions|
      invariant i == 9 * k && k <= (|positions| + 8) / 9
      invariant writer.faces == Faces(q[..i])
      invariant forall f :: f in writer.faces ==> f.d == f.c
    {
      var v1 := ReadVertex(positions, i);
      var v2 := ReadVertex(positions, i + 3);
      var v3 := ReadVertex(positions, i + 6);
      PaddedRunAt(positions, k, i);
      FacesStep(q, i);
      writer.Add3DFace(Face3D(v1, v2, v3, v3));
      i, k := i + 9, k + 1;
    }
    RunsTaken(|positions|, k);
    assert q[..i] == q;
    if |positions| % 9 == 0 {
      PaddedWhole(positions);
    }
    faces := writer.faces;
  }

  /** The run of the padded buffer at counter i = 9k is the triangle of the
      three zero-defaulting reads at i, i+3 and i+6. */
  lemma PaddedRunAt(p: seq<real>, k: nat, i: nat)
    requires i == 9 * k && i < |p|
    ensures i % 9 == 0 && i + 9 <= |Padded(p)|
    ensures TriangleAt(Padded(p), i) == Triangle(ReadVertex(p, i), ReadVertex(p, i + 3), ReadVertex(p, i + 6))
  {
    RunStarted(|p|, k);
  }

  /** Reading the exported faces back gives the position buffer padded with
      zeros to whole triangles, which is the buffer itself when it already
      holds whole triangles. */
  lemma ExportRoundTrip(p: seq<real>)
    ensures FacePositions(Faces(Padded(p))) == Padded(p)
    ensures |p| % 9 == 0 ==> Padded(p) == p
    ensures Padded(p)[..|p|] == p
  {
    FacesRoundTrip(Padded(p));
  }

  // ---- loadDXF ----

  /** A point of a parsed DXF entity; `z` may be missing. */
  datatype DxfPoint = DxfPoint(x: real, y: real, z: Option<real>)

  /** An entity type the loader's switch has no case for. */
  type OtherType = t: string | t != "LINE" && t != "CIRCLE" && t != "ARC" witness "POINT"

  /** The entities of a parsed DXF file that the loader tells apart. */
  datatype Entity =
    | Line(vertices: seq<DxfPoint>)
    | Circle(center: DxfPoint, radius: real)
    | Arc(center: DxfPoint, radius: real, startAngle: real, endAngle: real)
    | OtherEntity(entityType: OtherType)

  /** The scene child made for an entity. */
  datatype Child =
      /** A `THREE.Line` over a buffer of two vertices. */
    | LineChild(positions: seq<real>)
      /** A `THREE.Mesh` over `CircleGeometry(radius, segments)` placed at `position`. */
    | CircleChild(radius: real, segments: nat, position: Vector3)
      /** A `THREE.Line` through `points + 1` points of the planar ellipse
          curve centred at (cx, cy) with equal radii, from `startAngle` to
          `endAngle`, counter-clockwise, unrotated. */
    | ArcChild(cx: real, cy: real, radius: real, startAngle: real, endAngle: real, points: nat)

  /** `p.z || 0`: a missing z is 0. */
  function ZOrZero(p: DxfPoint): real {
    match p.z
    case None => 0.0
    case Some(z) => z
  }

  /** A LINE with fewer than two vertices makes the loader throw. */
  predicate Readable(e: Entity) {
    e.Line? ==> 2 <= |e.vertices|
  }

  /** The child for one entity; entities of any other type get none. */
  function ChildOf(e: Entity): (c: Option<Child>)
    requires Readable(e)
    ensures c.Some? <==> !e.OtherEntity?
    ensures e.Line? ==> c.Some? && c.value.LineChild? && |c.value.positions| == 6
    ensures e.Circle? ==> c.Some? && c.value.CircleChild? && c.value.segments == 32
    ensures e.Arc? ==> c.Some? && c.value.ArcChild? && c.value.points == 50
  {
    match e
    case Line(vs) =>
      Some(LineChild([vs[0].x, vs[0].y, ZOrZero(vs[0]), vs[1].x, vs[1].y, ZOrZero(vs[1])]))
    case Circle(center, radius) =>
      Some(CircleChild(radius, 32, Vector3(center.x, center.y, ZOrZero(center))))
    case Arc(center, radius, startAngle, endAngle) =>
      Some(ArcChild(center.x, center.y, radius, startAngle, endAngle, 50))
    case OtherEntity(_) => None
  }

  /** The children of a list of readable entities, in entity order. */
  function Children(es: seq<Entity>): (cs: seq<Child>)
    requires forall e :: e in es ==> Readable(e)
    ensures |cs| <= |es|
  {
    if es == [] then []
    else
      var last := es[|es| - 1];
      Children(es[..|es| - 1]) + match ChildOf(last) case Some(c) => [c] case None => []
  }

  /** The number of entities the loader turns into children. */
  function Drawable(es: seq<Entity>): nat {
    if es == [] then 0 else Drawable(es[..|es| - 1]) + if es[|es| - 1].OtherEntity? then 0 else 1
  }

  /** One child per LINE, CIRCLE or ARC, and children of two entity lists
      concatenate: the group keeps entity order. */
  lemma {:induction false} ChildrenAppend(es: seq<Entity>, fs: seq<Entity>)
    requires forall e :: e in es + fs ==> Readable(e)
    ensures |Children(es)| == Drawable(es)
    ensures Children(es + fs) == Children(es) + Children(fs)
    decreases |fs|
  {
    if fs == [] {
      assert es + fs == es;
      ChildrenCount(es);
    } else {
      var n := |fs| - 1;
      assert (es + fs)[..|es + fs| - 1] == es + fs[..n];
      ChildrenAppend(es, fs[..n]);
    }
  }

  lemma {:induction false} ChildrenCount(es: seq<Entity>)
    requires forall e :: e in es ==> Readable(e)
    ensures |Children(es)| == Drawable(es)
  {
    if es != [] {
      ChildrenCount(es[..|es| - 1]);
    }
  }

  /** The group the loader builds, reduced to its children. */
  class DxfGroup {
    var children: seq<Child>

    constructor ()
      ensures children == []
    {
      children := [];
    }

    /** `group.add`: appends one child. */
    method Add(c: Child)
      modifies this
      ensures children == old(children) + [c]
    {
      children := children + [c];
    }
  }

  /** `loadDXF` after parsing: walks the entity list (none means an empty
      group), adding one child per LINE, CIRCLE or ARC; a LINE with fewer
      than two vertices makes it reject. */
  method LoadDXF(entities: Option<seq<Entity>>) returns (r: Result<seq<Child>>)
    ensures entities.None? ==> r == Ok([])
    ensures entities.Some? ==> (r.Ok? <==> forall e :: e in entities.value ==> Readable(e))
    ensures r.Ok? && entities.Some? ==> r.value == Children(entities.value)
  {
    var group := new DxfGroup();
    if entities.None? {
      return Ok(group.children);
    }
    var es := entities.value;
    var i := 0;
    while i < |es|
      invariant i <= |es|
      invariant forall e :: e in es[..i] ==> Readable(e)
      invariant group.children == Children(es[..i])
    {
      var e := es[i];
      assert es[..i + 1][..i] == es[..i];
      match e {
        case Line(vs) =>
          if |vs| < 2 {
            assert es[i] in es && !Readable(es[i]);
            return Err("LINE entity without two vertices");
          }
          group.Add(LineChild([vs[0].x, vs[0].y, ZOrZero(vs[0]), vs[1].x, vs[1].y, ZOrZero(vs[1])]));
        case Circle(center, radius) =>
          group.Add(CircleChild(radius, 32, Vector3(center.x, center.y, ZOrZero(center))));
        case Arc(center, radius, startAngle, endAngle) =>
          group.Add(ArcChild(center.x, center.y, radius, startAngle, endAngle, 50));
        case OtherEntity(_) =>
      }
      i := i + 1;
    }
    assert es[..i] == es;
    r := Ok(group.children);
  }
}
