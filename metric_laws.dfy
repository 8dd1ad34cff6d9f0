/** Laws of the mesh metrics: per-triangle symmetries, scaling and
    translation, degenerate buffers, and agreement of the indexed walk with
    the walk over the de-indexed buffer. */
module MetricLaws {
  import opened Wrappers
  import opened Three
  import opened Metrics
  import opened VectorLaws

  // ---- One triangle ----

  /** Relabelling a triangle's vertices does not change its volume
      contribution: the triple product is cyclic, and a swap only flips its
      sign. A rotation and a swap generate all six orders. */
  lemma TetraVolumePermutation(t: Triangle)
    ensures TetraVolume(Triangle(t.v2, t.v3, t.v1)) == TetraVolume(t)
    ensures TetraVolume(Triangle(t.v2, t.v1, t.v3)) == TetraVolume(t)
  {
    assert SignedVolume(Triangle(t.v2, t.v3, t.v1)) == SignedVolume(t);
    assert SignedVolume(Triangle(t.v2, t.v1, t.v3)) == -SignedVolume(t);
  }

  /** A triangle with two coincident vertices adds no area. */
  lemma DegenerateTriangleArea(sqrt: real -> real, t: Triangle)
    requires IsSqrt(sqrt)
    requires t.v1 == t.v2 || t.v2 == t.v3 || t.v1 == t.v3
    ensures TriangleArea(sqrt, t) == 0.0
  {
    assert Cross(Sub(t.v2, t.v1), Sub(t.v3, t.v1)) == Origin;
  }

  function TranslateTriangle(t: Triangle, d: Vector3): Triangle {
    Triangle(Add(t.v1, d), Add(t.v2, d), Add(t.v3, d))
  }

  /** Moving a triangle leaves its area alone: only the edges v2 - v1 and v3 - v1 are used. */
  lemma TriangleAreaTranslation(sqrt: real -> real, t: Triangle, d: Vector3)
    requires IsSqrt(sqrt)
    ensures TriangleArea(sqrt, TranslateTriangle(t, d)) == TriangleArea(sqrt, t)
  {
    var u := TranslateTriangle(t, d);
    assert Sub(u.v2, u.v1) == Sub(t.v2, t.v1);
    assert Sub(u.v3, u.v1) == Sub(t.v3, t.v1);
  }

  function ScaleTriangle(k: real, t: Triangle): Triangle {
    Triangle(Scale(k, t.v1), Scale(k, t.v2), Scale(k, t.v3))
  }

  lemma SignedVolumeScale(k: real, t: Triangle)
    ensures SignedVolume(ScaleTriangle(k, t)) == Mul(k * k * k, SignedVolume(t))
  {
    TripleScale(k, t.v1, t.v2, t.v3);
    MulSixth(k * k * k, Dot(t.v1, Cross(t.v2, t.v3)));
  }

  lemma MulSixth(m: real, d: real)
    ensures Mul(m, d) / 6.0 == Mul(m, d / 6.0)
  {
  }

  /** Scaling a triangle by k scales its volume contribution by |k|³. */
  lemma TetraVolumeScale(k: real, t: Triangle)
    ensures TetraVolume(ScaleTriangle(k, t)) == Mul(Abs(k * k * k), TetraVolume(t))
  {
    SignedVolumeScale(k, t);
    AbsProduct(k * k * k, SignedVolume(t));
  }

  /** With the genuine square root, scaling a triangle by k scales its area by k². */
  lemma TriangleAreaScale(sqrt: real -> real, k: real, t: Triangle)
    requires IsSqrt(sqrt) && SquaresBack(sqrt)
    ensures TriangleArea(sqrt, ScaleTriangle(k, t)) == Mul(k * k, TriangleArea(sqrt, t))
  {
    var u, e1, e2 := ScaleTriangle(k, t), Sub(t.v2, t.v1), Sub(t.v3, t.v1);
    var c := Cross(e1, e2);
    SubScale(k, t.v2, t.v1);
    SubScale(k, t.v3, t.v1);
    assert Sub(u.v2, u.v1) == Scale(k, e1) && Sub(u.v3, u.v1) == Scale(k, e2);
    var kk := k * k;
    CrossScale(k, e1, e2);
    var sc := Scale(kk, c);
    assert Cross(Sub(u.v2, u.v1), Sub(u.v3, u.v1)) == sc;
    LengthSqScale(kk, c);
    var q := LengthSq(c);
    assert LengthSq(sc) == kk * kk * q;
    SquareNonNegative(k);
    SqrtScale(sqrt, kk, q);
    assert sqrt(LengthSq(sc)) == kk * sqrt(q);
    assert TriangleArea(sqrt, u) == sqrt(LengthSq(sc)) / 2.0;
    assert TriangleArea(sqrt, t) == sqrt(q) / 2.0;
  }

  // ---- Whole buffers ----

  /** An empty position buffer, or an empty index buffer, measures zero. */
  lemma EmptyBuffers(sqrt: real -> real, g: BufferGeometry)
    requires IsSqrt(sqrt) && WellFormed(g)
    requires (g.index == None && g.positions == []) || g.index == Some([])
    ensures Triangles(g) == []
    ensures Volume(g) == 0.0 && SurfaceArea(sqrt, g) == 0.0
  {
  }

  function ScaleAll(k: real, ts: seq<Triangle>): (us: seq<Triangle>)
    ensures |us| == |ts|
  {
    seq(|ts|, j requires 0 <= j < |ts| => ScaleTriangle(k, ts[j]))
  }

  lemma ScaleAllPrefix(k: real, ts: seq<Triangle>, n: nat)
    requires n <= |ts|
    ensures ScaleAll(k, ts)[..n] == ScaleAll(k, ts[..n])
  {
    forall j | 0 <= j < n ensures ScaleAll(k, ts)[..n][j] == ScaleAll(k, ts[..n])[j] {
    }
  }

  /** Scaling every triangle by k scales the summed volume by |k|³. */
  lemma {:induction false} SumVolumeScale(k: real, ts: seq<Triangle>)
    ensures SumVolume(ScaleAll(k, ts)) == Mul(Abs(k * k * k), SumVolume(ts))
  {
    if ts != [] {
      var n := |ts| - 1;
      ScaleAllPrefix(k, ts, n);
      SumVolumeScale(k, ts[..n]);
      assert ScaleAll(k, ts)[n] == ScaleTriangle(k, ts[n]);
      TetraVolumeScale(k, ts[n]);
      MulDistributes(Abs(k * k * k), SumVolume(ts[..n]), TetraVolume(ts[n]));
    }
  }

  /** With the genuine square root, scaling every triangle by k scales the summed area by k². */
  lemma {:induction false} SumAreaScale(sqrt: real -> real, k: real, ts: seq<Triangle>)
    requires IsSqrt(sqrt) && SquaresBack(sqrt)
    ensures SumArea(sqrt, ScaleAll(k, ts)) == Mul(k * k, SumArea(sqrt, ts))
  {
    if ts != [] {
      var n := |ts| - 1;
      SumAreaScaleStep(sqrt, k, ts);
      SumAreaScale(sqrt, k, ts[..n]);
      TriangleAreaScale(sqrt, k, ts[n]);
      var a, b := SumArea(sqrt, ts[..n]), TriangleArea(sqrt, ts[n]);
      assert SumArea(sqrt, ts) == a + b;
      MulDistributes(k * k, a, b);
    }
  }

  /** Scaling commutes with splitting off the last triangle. */
  lemma SumAreaScaleStep(sqrt: real -> real, k: real, ts: seq<Triangle>)
    requires IsSqrt(sqrt) && ts != []
    ensures SumArea(sqrt, ScaleAll(k, ts))
         == SumArea(sqrt, ScaleAll(k, ts[..|ts| - 1])) + TriangleArea(sqrt, ScaleTriangle(k, ts[|ts| - 1]))
  {
    var n := |ts| - 1;
    ScaleAllPrefix(k, ts, n);
    assert ScaleAll(k, ts)[n] == ScaleTriangle(k, ts[n]);
  }

  /** Every coordinate of the buffer multiplied by k. */
  function ScaleBuffer(k: real, p: seq<real>): (q: seq<real>)
    ensures |q| == |p| && forall i :: 0 <= i < |p| ==> q[i] == k * p[i]
  {
    seq(|p|, i requires 0 <= i < |p| => k * p[i])
  }

  function ScaleGeometry(k: real, g: BufferGeometry): BufferGeometry {
    BufferGeometry(ScaleBuffer(k, g.positions), g.index)
  }

  lemma ScaledVertex(k: real, p: seq<real>, i: nat)
    requires i + 2 < |p|
    ensures VertexAt(ScaleBuffer(k, p), i) == Scale(k, VertexAt(p, i))
  {
  }

  lemma ScaledTriangleNumber(k: real, g: BufferGeometry, j: nat)
    requires WellFormed(g) && WellFormed(ScaleGeometry(k, g)) && j < |Triangles(g)|
    ensures j < |Triangles(ScaleGeometry(k, g))|
    ensures Triangles(ScaleGeometry(k, g))[j] == ScaleTriangle(k, Triangles(g)[j])
  {
    var h, p := ScaleGeometry(k, g), g.positions;
    TriangleNumber(g, j);
    TriangleNumber(h, j);
    if g.index.Some? {
      var idx := g.index.value;
      ScaledVertex(k, p, 3 * idx[3 * j]);
      ScaledVertex(k, p, 3 * idx[3 * j + 1]);
      ScaledVertex(k, p, 3 * idx[3 * j + 2]);
    } else {
      ScaledVertex(k, p, 9 * j);
      ScaledVertex(k, p, 9 * j + 3);
      ScaledVertex(k, p, 9 * j + 6);
    }
  }

  lemma ScaledTriangles(k: real, g: BufferGeometry)
    requires WellFormed(g)
    ensures WellFormed(ScaleGeometry(k, g))
    ensures Triangles(ScaleGeometry(k, g)) == ScaleAll(k, Triangles(g))
  {
    var h := ScaleGeometry(k, g);
    assert WellFormed(h);
    forall j | 0 <= j < |Triangles(g)|
      ensures Triangles(h)[j] == ScaleAll(k, Triangles(g))[j]
    {
      ScaledTriangleNumber(k, g, j);
    }
  }

  /** Scaling every coordinate by k multiplies the volume by |k|³ and, with
      the genuine square root, the surface area by k². */
  lemma GeometryScale(sqrt: real -> real, k: real, g: BufferGeometry)
    requires IsSqrt(sqrt) && SquaresBack(sqrt) && WellFormed(g)
    ensures WellFormed(ScaleGeometry(k, g))
    ensures Volume(ScaleGeometry(k, g)) == Mul(Abs(k * k * k), Volume(g))
    ensures SurfaceArea(sqrt, ScaleGeometry(k, g)) == Mul(k * k, SurfaceArea(sqrt, g))
  {
    var h, ts := ScaleGeometry(k, g), Triangles(g);
    ScaledTriangles(k, g);
    SumVolumeScale(k, ts);
    SumAreaScale(sqrt, k, ts);
  }

  /** Coordinate i of a buffer moved by d: each vertex gets d added. */
  function Shift(d: Vector3, i: nat): real {
    if i % 3 == 0 then d.x else if i % 3 == 1 then d.y else d.z
  }

  function TranslateBuffer(d: Vector3, p: seq<real>): (q: seq<real>)
    ensures |q| == |p|
  {
    seq(|p|, i requires 0 <= i < |p| => p[i] + Shift(d, i))
  }

  lemma TranslatedVertex(d: Vector3, p: seq<real>, v: nat, k: nat)
    requires k == 3 * v && k + 2 < |p|
    ensures VertexAt(TranslateBuffer(d, p), k) == Add(VertexAt(p, k), d)
  {
    assert k % 3 == 0 && (k + 1) % 3 == 1 && (k + 2) % 3 == 2;
  }

  /** Moving every vertex of a triangle list by d moves each of its triangles by d. */
  lemma {:induction false} SumAreaTranslation(sqrt: real -> real, d: Vector3, ts: seq<Triangle>, us: seq<Triangle>)
    requires IsSqrt(sqrt) && |us| == |ts|
    requires forall j :: 0 <= j < |ts| ==> us[j] == TranslateTriangle(ts[j], d)
    ensures SumArea(sqrt, us) == SumArea(sqrt, ts)
  {
    if ts != [] {
      var n := |ts| - 1;
      SumAreaTranslation(sqrt, d, ts[..n], us[..n]);
      TriangleAreaTranslation(sqrt, ts[n], d);
    }
  }

  /** Translating every vertex by the same vector leaves the surface area unchanged. */
  lemma GeometryTranslation(sqrt: real -> real, d: Vector3, g: BufferGeometry)
    requires IsSqrt(sqrt) && WellFormed(g)
    ensures WellFormed(BufferGeometry(TranslateBuffer(d, g.positions), g.index))
    ensures SurfaceArea(sqrt, BufferGeometry(TranslateBuffer(d, g.positions), g.index)) == SurfaceArea(sqrt, g)
  {
    var h := BufferGeometry(TranslateBuffer(d, g.positions), g.index);
    assert WellFormed(h);
    var ts, us := Triangles(g), Triangles(h);
    forall j | 0 <= j < |ts| ensures us[j] == TranslateTriangle(ts[j], d) {
      TranslatedTriangle(d, g, j);
    }
    SumAreaTranslation(sqrt, d, ts, us);
  }

  /** Triangle j of the translated geometry is triangle j moved by d. */
  lemma TranslatedTriangle(d: Vector3, g: BufferGeometry, j: nat)
    requires WellFormed(g) && j < |Triangles(g)|
    ensures WellFormed(BufferGeometry(TranslateBuffer(d, g.positions), g.index))
    ensures Triangles(BufferGeometry(TranslateBuffer(d, g.positions), g.index))[j] == TranslateTriangle(Triangles(g)[j], d)
  {
    var p := g.positions;
    var h := BufferGeometry(TranslateBuffer(d, p), g.index);
    assert WellFormed(h);
    TriangleNumber(g, j);
    TriangleNumber(h, j);
    match g.index {
      case Some(idx) =>
        TranslatedVertex(d, p, idx[3 * j], 3 * idx[3 * j]);
        TranslatedVertex(d, p, idx[3 * j + 1], 3 * idx[3 * j + 1]);
        TranslatedVertex(d, p, idx[3 * j + 2], 3 * idx[3 * j + 2]);
      case None =>
        TranslatedVertex(d, p, 3 * j, 9 * j);
        TranslatedVertex(d, p, 3 * j + 1, 9 * j + 3);
        TranslatedVertex(d, p, 3 * j + 2, 9 * j + 6);
    }
  }

  // ---- Indexed and de-indexed buffers ----

  /** The non-indexed buffer an index buffer stands for: for each index entry
      m, the three coordinates of vertex m. */
  function DeIndex(p: seq<real>, idx: seq<nat>): (q: seq<real>)
    requires IndicesInRange(p, idx)
    ensures |q| == 3 * |idx|
  {
    seq(3 * |idx|, i requires 0 <= i < 3 * |idx| => p[3 * idx[i / 3] + i % 3])
  }

  lemma DeIndexedVertex(p: seq<real>, idx: seq<nat>, m: nat, k: nat)
    requires IndicesInRange(p, idx) && m < |idx| && k == 3 * m
    ensures k + 2 < |DeIndex(p, idx)|
    ensures VertexAt(DeIndex(p, idx), k) == VertexAt(p, 3 * idx[m])
  {
    assert k / 3 == m && (k + 1) / 3 == m && (k + 2) / 3 == m;
    assert k % 3 == 0 && (k + 1) % 3 == 1 && (k + 2) % 3 == 2;
  }

  lemma DeIndexedTriangle(p: seq<real>, idx: seq<nat>, j: nat)
    requires IndicesInRange(p, idx) && 3 * j + 2 < |idx|
    ensures 9 * j + 8 < |DeIndex(p, idx)|
    ensures TriangleAt(DeIndex(p, idx), 9 * j) == IndexedTriangle(p, idx, 3 * j)
  {
    DeIndexedVertex(p, idx, 3 * j, 9 * j);
    DeIndexedVertex(p, idx, 3 * j + 1, 9 * j + 3);
    DeIndexedVertex(p, idx, 3 * j + 2, 9 * j + 6);
  }

  lemma DeIndexedTriangleNumber(g: BufferGeometry, j: nat)
    requires WellFormed(g) && g.index.Some? && j < |Triangles(g)|
    requires WellFormed(BufferGeometry(DeIndex(g.positions, g.index.value), None))
    ensures j < |Triangles(BufferGeometry(DeIndex(g.positions, g.index.value), None))|
    ensures Triangles(BufferGeometry(DeIndex(g.positions, g.index.value), None))[j] == Triangles(g)[j]
  {
    var h := BufferGeometry(DeIndex(g.positions, g.index.value), None);
    TriangleNumber(g, j);
    TriangleNumber(h, j);
    DeIndexedTriangle(g.positions, g.index.value, j);
  }

  /** The indexed walk visits the same triangles as the non-indexed walk over
      the de-indexed buffer. */
  lemma DeIndexedTriangles(g: BufferGeometry)
    requires WellFormed(g) && g.index.Some?
    ensures WellFormed(BufferGeometry(DeIndex(g.positions, g.index.value), None))
    ensures Triangles(BufferGeometry(DeIndex(g.positions, g.index.value), None)) == Triangles(g)
  {
    var idx := g.index.value;
    var h := BufferGeometry(DeIndex(g.positions, idx), None);
    assert |h.positions| == 9 * (|idx| / 3);
    assert WellFormed(h);
    forall j | 0 <= j < |Triangles(g)| ensures Triangles(h)[j] == Triangles(g)[j] {
      DeIndexedTriangleNumber(g, j);
    }
    assert Triangles(h) == Triangles(g);
  }

  /** So both walks measure the same volume and area. */
  lemma IndexedMatchesDeIndexed(sqrt: real -> real, g: BufferGeometry)
    requires IsSqrt(sqrt) && WellFormed(g) && g.index.Some?
    ensures WellFormed(BufferGeometry(DeIndex(g.positions, g.index.value), None))
    ensures Volume(BufferGeometry(DeIndex(g.positions, g.index.value), None)) == Volume(g)
    ensures SurfaceArea(sqrt, BufferGeometry(DeIndex(g.positions, g.index.value), None)) == SurfaceArea(sqrt, g)
  {
    DeIndexedTriangles(g);
  }

  // ---- joined buffers ----

  lemma {:induction false} SumVolumeAppend(ts: seq<Triangle>, us: seq<Triangle>)
    ensures SumVolume(ts + us) == SumVolume(ts) + SumVolume(us)
    decreases |us|
  {
    if us == [] {
      assert ts + us == ts;
    } else {
      var n := |us| - 1;
      assert (ts + us)[..|ts + us| - 1] == ts + us[..n];
      SumVolumeAppend(ts, us[..n]);
    }
  }

  lemma {:induction false} SumAreaAppend(sqrt: real -> real, ts: seq<Triangle>, us: seq<Triangle>)
    requires IsSqrt(sqrt)
    ensures SumArea(sqrt, ts + us) == SumArea(sqrt, ts) + SumArea(sqrt, us)
    decreases |us|
  {
    if us == [] {
      assert ts + us == ts;
    } else {
      var n := |us| - 1;
      assert (ts + us)[..|ts + us| - 1] == ts + us[..n];
      SumAreaAppend(sqrt, ts, us[..n]);
    }
  }

  /** Two triangle buffers laid end to end measure the sum of their volumes
      and of their areas: joining buffers neither adds nor loses a triangle. */
  lemma JoinedBuffers(sqrt: real -> real, p: seq<real>, q: seq<real>)
    requires IsSqrt(sqrt) && |p| % 9 == 0 && |q| % 9 == 0
    ensures WellFormed(BufferGeometry(p + q, None))
    ensures Triangles(BufferGeometry(p + q, None)) == Triangles(BufferGeometry(p, None)) + Triangles(BufferGeometry(q, None))
    ensures Volume(BufferGeometry(p + q, None)) == Volume(BufferGeometry(p, None)) + Volume(BufferGeometry(q, None))
    ensures SurfaceArea(sqrt, BufferGeometry(p + q, None))
         == SurfaceArea(sqrt, BufferGeometry(p, None)) + SurfaceArea(sqrt, BufferGeometry(q, None))
  {
    var g, gp, gq := BufferGeometry(p + q, None), BufferGeometry(p, None), BufferGeometry(q, None);
    assert |p + q| / 9 == |p| / 9 + |q| / 9;
    forall j | 0 <= j < |Triangles(g)| ensures Triangles(g)[j] == (Triangles(gp) + Triangles(gq))[j] {
      TriangleNumber(g, j);
      if j < |p| / 9 {
        TriangleNumber(gp, j);
        TriangleAtLeft(p, q, 9 * j);
      } else {
        var m := j - |p| / 9;
        TriangleNumber(gq, m);
        TriangleAtRight(p, q, 9 * m, 9 * j);
      }
    }
    assert Triangles(g) == Triangles(gp) + Triangles(gq);
    SumVolumeAppend(Triangles(gp), Triangles(gq));
    SumAreaAppend(sqrt, Triangles(gp), Triangles(gq));
  }

  lemma TriangleAtLeft(p: seq<real>, q: seq<real>, i: nat)
    requires i + 8 < |p|
    ensures TriangleAt(p + q, i) == TriangleAt(p, i)
  {
  }

  lemma TriangleAtRight(p: seq<real>, q: seq<real>, i: nat, k: nat)
    requires i + 8 < |q| && k == |p| + i
    ensures TriangleAt(p + q, k) == TriangleAt(q, i)
  {
  }
}
