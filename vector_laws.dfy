/** Algebraic identities of the vector operations and the square root that
    the scaling laws of the mesh metrics rest on. */
module VectorLaws {
  import opened Three

  /** Equal factors give equal products. The solver does not rewrite inside
      a product by itself, so the scaling proofs below spell these steps out. */
  lemma MulLeft(m: real, p: real, q: real)
    requires p == q
    ensures m * p == m * q
  {
  }

  lemma SubFactor(a: real, b: real, m: real)
    ensures a * m - b * m == (a - b) * m
  {
  }

  lemma MulBoth(p: real, q: real, p2: real, q2: real)
    requires p == p2 && q == q2
    ensures p * q == p2 * q2
  {
  }

  /** A product the solver treats as an ordinary function application, so
      that equal factors give equal products by congruence. Sums of many
      products are stated with it. */
  function Mul(m: real, x: real): real {
    m * x
  }

  lemma MulDistributes(m: real, x: real, y: real)
    ensures Mul(m, x) + Mul(m, y) == Mul(m, x + y)
  {
  }

  /** Scaling both factors of a cross product by k scales it by k². */
  lemma CrossScale(k: real, a: Vector3, b: Vector3)
    ensures Cross(Scale(k, a), Scale(k, b)) == Scale(k * k, Cross(a, b))
  {
    CrossScaleLeft(k, a, Scale(k, b));
    CrossScaleRight(k, a, b);
    ScaleScale(k, k, Cross(a, b));
  }

  lemma CrossScaleLeft(k: real, a: Vector3, b: Vector3)
    ensures Cross(Scale(k, a), b) == Scale(k, Cross(a, b))
  {
    var sa := Scale(k, a);
    assert Minor(sa.y, b.z, sa.z, b.y) == k * Minor(a.y, b.z, a.z, b.y);
    assert Minor(sa.z, b.x, sa.x, b.z) == k * Minor(a.z, b.x, a.x, b.z);
    assert Minor(sa.x, b.y, sa.y, b.x) == k * Minor(a.x, b.y, a.y, b.x);
  }

  lemma CrossScaleRight(k: real, a: Vector3, b: Vector3)
    ensures Cross(a, Scale(k, b)) == Scale(k, Cross(a, b))
  {
    var sb := Scale(k, b);
    assert Minor(a.y, sb.z, a.z, sb.y) == k * Minor(a.y, b.z, a.z, b.y);
    assert Minor(a.z, sb.x, a.x, sb.z) == k * Minor(a.z, b.x, a.x, b.z);
    assert Minor(a.x, sb.y, a.y, sb.x) == k * Minor(a.x, b.y, a.y, b.x);
  }

  lemma ScaleScale(k: real, m: real, v: Vector3)
    ensures Scale(k, Scale(m, v)) == Scale(k * m, v)
  {
  }

  lemma DotScaleLeft(k: real, a: Vector3, b: Vector3)
    ensures Dot(Scale(k, a), b) == Mul(k, Dot(a, b))
  {
  }

  lemma DotScaleRight(k: real, a: Vector3, b: Vector3)
    ensures Dot(a, Scale(k, b)) == Mul(k, Dot(a, b))
  {
  }

  lemma MulCube(k: real, d: real)
    ensures Mul(k, Mul(k * k, d)) == Mul(k * k * k, d)
  {
  }

  /** Scaling all three factors of a triple product by k scales it by k³. */
  lemma TripleScale(k: real, a: Vector3, b: Vector3, c: Vector3)
    ensures Dot(Scale(k, a), Cross(Scale(k, b), Scale(k, c))) == Mul(k * k * k, Dot(a, Cross(b, c)))
  {
    var x := Cross(b, c);
    var y := Scale(k * k, x);
    CrossScale(k, b, c);
    DotScaleLeft(k, a, y);
    DotScaleRight(k * k, a, x);
    MulCube(k, Dot(a, x));
  }

  lemma SubScale(k: real, a: Vector3, b: Vector3)
    ensures Sub(Scale(k, a), Scale(k, b)) == Scale(k, Sub(a, b))
  {
    var d := Sub(a, b);
    MulLeft(k, d.x, a.x - b.x);
    MulLeft(k, d.y, a.y - b.y);
    MulLeft(k, d.z, a.z - b.z);
  }

  lemma LengthSqScale(m: real, a: Vector3)
    ensures LengthSq(Scale(m, a)) == m * m * LengthSq(a)
  {
    var sa := Scale(m, a);
    MulBoth(sa.x, sa.x, m * a.x, m * a.x);
    MulBoth(sa.y, sa.y, m * a.y, m * a.y);
    MulBoth(sa.z, sa.z, m * a.z, m * a.z);
    MulLeft(m * m, LengthSq(a), a.x * a.x + a.y * a.y + a.z * a.z);
  }

  lemma AbsProduct(a: real, b: real)
    ensures Abs(Mul(a, b)) == Mul(Abs(a), Abs(b))
  {
    if a < 0.0 && b < 0.0 {
      assert a * b == (-a) * (-b);
    } else if a < 0.0 {
      assert -(a * b) == (-a) * b;
    } else if b < 0.0 {
      assert -(a * b) == a * (-b);
    }
  }

  /** Two non-negative numbers with equal squares are equal. */
  lemma SquareRootUnique(r: real, u: real)
    requires 0.0 <= r && 0.0 <= u && r * r == u * u
    ensures r == u
  {
    assert (r - u) * (r + u) == 0.0;
    if r + u != 0.0 {
      assert r - u == 0.0;
    }
  }

  /** The root of m²q is m times the root of q, for m ≥ 0. */
  lemma SqrtScale(sqrt: real -> real, m: real, q: real)
    requires IsSqrt(sqrt) && SquaresBack(sqrt)
    requires 0.0 <= m && 0.0 <= q
    ensures sqrt(m * m * q) == m * sqrt(q)
  {
    var s := sqrt(q);
    SquareNonNegative(m);
    ProductNonNegative(m * m, q);
    var r := sqrt(m * m * q);
    assert r * r == m * m * q;
    MulLeft(m * m, s * s, q);
    assert (m * s) * (m * s) == m * m * (s * s);
    ProductNonNegative(m, s);
    SquareRootUnique(r, m * s);
  }
}
