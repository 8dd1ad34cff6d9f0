/** The parts of the three.js library the application relies on, as values:
    vectors, buffer geometries and the scene-object tree. */
module Three {
  import opened Wrappers

  /** `THREE.Vector3` with real coordinates. */
  datatype Vector3 = Vector3(x: real, y: real, z: real)

  const Origin := Vector3(0.0, 0.0, 0.0)

  function Add(a: Vector3, b: Vector3): Vector3 {
    Vector3(a.x + b.x, a.y + b.y, a.z + b.z)
  }

  /** `subVectors(a, b)`: the difference a - b. */
  function Sub(a: Vector3, b: Vector3): Vector3 {
    Vector3(a.x - b.x, a.y - b.y, a.z - b.z)
  }

  function Scale(k: real, a: Vector3): Vector3 {
    Vector3(k * a.x, k * a.y, k * a.z)
  }

  function Dot(a: Vector3, b: Vector3): real {
    a.x * b.x + a.y * b.y + a.z * b.z
  }

  /** The 2×2 determinant p·q − r·s, one component of a cross product. */
  function Minor(p: real, q: real, r: real, s: real): real {
    p * q - r * s
  }

  function Cross(a: Vector3, b: Vector3): Vector3 {
    Vector3(Minor(a.y, b.z, a.z, b.y), Minor(a.z, b.x, a.x, b.z), Minor(a.x, b.y, a.y, b.x))
  }

  /** The squared Euclidean length. */
  function LengthSq(a: Vector3): (r: real)
    ensures 0.0 <= r
  {
    SquareNonNegative(a.x);
    SquareNonNegative(a.y);
    SquareNonNegative(a.z);
    a.x * a.x + a.y * a.y + a.z * a.z
  }

  lemma SquareNonNegative(r: real)
    ensures 0.0 <= r * r
  {
    if r < 0.0 {
      assert r * r == (-r) * (-r);
    }
  }

  lemma ProductNonNegative(a: real, b: real)
    requires 0.0 <= a && 0.0 <= b
    ensures 0.0 <= a * b
  {
  }

  /** `Math.abs` on reals. */
  function Abs(r: real): (a: real)
    ensures 0.0 <= a && (a == r || a == -r)
  {
    if r < 0.0 then -r else r
  }

  /** `Math.sqrt` is not definable on Dafny's reals, so callers pass the
      square root in. This is all the calculator relies on: the root of zero
      is zero and no root is negative. */
  ghost predicate IsSqrt(sqrt: real -> real) {
    sqrt(0.0) == 0.0 && forall q :: 0.0 <= q ==> 0.0 <= sqrt(q)
  }

  /** The rest of what makes `sqrt` the square root, needed only for scaling laws. */
  ghost predicate SquaresBack(sqrt: real -> real) {
    forall q :: 0.0 <= q ==> sqrt(q) * sqrt(q) == q
  }

  /** `Vector3.length()`: the square root of the squared length. */
  function Length(sqrt: real -> real, a: Vector3): (l: real)
    requires IsSqrt(sqrt)
    ensures 0.0 <= l
    ensures a == Origin ==> l == 0.0
  {
    sqrt(LengthSq(a))
  }

  /** A `BufferGeometry`: the flat `position` attribute (three numbers per
      vertex) and, when present, the flat triangle `index` buffer. */
  datatype BufferGeometry = BufferGeometry(positions: seq<real>, index: Option<seq<nat>>)

  /** The kinds of scene object the application distinguishes. */
  datatype ObjectKind =
    | MeshObject(geometry: BufferGeometry)
    | LineObject(geometry: BufferGeometry)
    | GroupObject
    | OtherObject

  /** An `Object3D` with its children, in insertion order. */
  datatype Object3D = Object3D(kind: ObjectKind, children: seq<Object3D>)

  /** What a loader hands back: a single geometry or a scene group. */
  datatype SceneValue = Geometry(geometry: BufferGeometry) | Group(root: Object3D)

  /** `Object3D.traverse`: the object itself, then each child's traversal in order. */
  function Traverse(o: Object3D): seq<Object3D>
    decreases o, 1
  {
    [o] + TraverseAll(o.children)
  }

  function TraverseAll(cs: seq<Object3D>): seq<Object3D>
    decreases cs, 0
  {
    if cs == [] then [] else Traverse(cs[0]) + TraverseAll(cs[1..])
  }
}
