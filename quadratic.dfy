/**
 * Quadratic models and the expression algebra over them.
 *
 * A quadratic model (QM) is the polynomial
 *     offset + sum of linear[u]*u + sum of quadratic[{u, v}]*u*v
 * kept as an offset, a map from labels to coefficients and a map from
 * canonical label pairs to coefficients. Every expression over variables,
 * numeric constants and models evaluates to a QM: each operand is first
 * promoted to a QM, then the operands are combined key by key.
 *
 * Zero coefficients are never pruned: a key that entered a map stays in it,
 * whatever its coefficient becomes.
 */
module QuadraticModels {
  import opened Variables

  datatype QM = QM(offset: int, linear: map<Label, int>, quadratic: map<Edge, int>)

  /** An operand of `+`, `-` and `*`: a bare variable, a numeric constant or a model. */
  datatype Operand = Var(v: Variable) | Num(c: int) | Expr(q: QM)

  /**
   * Why a product cannot be formed: it would hold a term of degree three or
   * more, or it would square a label (a variable times itself).
   */
  datatype AlgebraError = DegreeExceeded | SelfProduct

  datatype Result<T> = Ok(value: T) | Err(error: AlgebraError)

  /** The coefficient stored under `k`, where an absent key reads as 0. */
  function Lookup<K>(m: map<K, int>, k: K): int
  {
    if k in m then m[k] else 0
  }

  /** The linear coefficient of `u` in `q`. */
  function Lin(q: QM, u: Label): int
  {
    Lookup(q.linear, u)
  }

  /** The coefficient of the product u*v in `q`, whichever order `u` and `v` are given in. */
  function Quad(q: QM, u: Label, v: Label): int
    requires u != v
  {
    Lookup(q.quadratic, MakeEdge(u, v))
  }

  /** Every quadratic key is a canonical pair of two distinct labels. */
  predicate WellFormed(q: QM)
  {
    forall e :: e in q.quadratic ==> Canonical(e)
  }

  predicate WellFormedOperand(t: Operand)
  {
    t.Expr? ==> WellFormed(t.q)
  }

  /** The model of a numeric constant: an offset and no terms. */
  function Constant(c: int): QM
  {
    QM(c, map[], map[])
  }

  /** Promotion of an operand to a model. */
  function Promote(t: Operand): (q: QM)
    ensures t.Num? ==> q.offset == t.c && q.linear == map[] && q.quadratic == map[]
    ensures t.Var? ==> q.offset == 0 && q.linear.Keys == {t.v.name} && Lin(q, t.v.name) == 1
                       && q.quadratic == map[]
    ensures t.Expr? ==> q == t.q
    ensures WellFormedOperand(t) ==> WellFormed(q)
  {
    match t
    case Num(c) => Constant(c)
    case Var(v) => QM(0, map[v.name := 1], map[])
    case Expr(q) => q
  }

  /** `m` plus `scale` times `n`, key by key; a key of either map is a key of the result. */
  function MergeMaps<K(!new)>(m: map<K, int>, n: map<K, int>, scale: int): (r: map<K, int>)
    ensures r.Keys == m.Keys + n.Keys
    ensures forall k :: Lookup(r, k) == Lookup(m, k) + scale * Lookup(n, k)
  {
    map k | k in m.Keys + n.Keys :: Lookup(m, k) + scale * Lookup(n, k)
  }

  /** Every coefficient of `m` times `c`, with the same keys. */
  function ScaleMap<K(!new)>(c: int, m: map<K, int>): (r: map<K, int>)
    ensures r.Keys == m.Keys
    ensures forall k :: Lookup(r, k) == c * Lookup(m, k)
  {
    map k | k in m.Keys :: c * m[k]
  }

  /**
   * The merge primitive: every entry of `src`, times `scale`, is added to the
   * matching entry of `dst`; keys absent from `dst` are inserted, none is
   * replaced or removed.
   */
  function Combine(dst: QM, src: QM, scale: int): (r: QM)
    ensures r.offset == dst.offset + scale * src.offset
    ensures r.linear.Keys == dst.linear.Keys + src.linear.Keys
    ensures r.quadratic.Keys == dst.quadratic.Keys + src.quadratic.Keys
    ensures forall u :: Lin(r, u) == Lin(dst, u) + scale * Lin(src, u)
    ensures forall e :: Lookup(r.quadratic, e) == Lookup(dst.quadratic, e) + scale * Lookup(src.quadratic, e)
    ensures WellFormed(dst) && WellFormed(src) ==> WellFormed(r)
  {
    QM(dst.offset + scale * src.offset,
       MergeMaps(dst.linear, src.linear, scale),
       MergeMaps(dst.quadratic, src.quadratic, scale))
  }

  /** `a + b` on promoted operands. */
  function Add(a: QM, b: QM): (r: QM)
    ensures r.offset == a.offset + b.offset
    ensures r.linear.Keys == a.linear.Keys + b.linear.Keys
    ensures r.quadratic.Keys == a.quadratic.Keys + b.quadratic.Keys
    ensures forall u :: Lin(r, u) == Lin(a, u) + Lin(b, u)
    ensures forall e :: Lookup(r.quadratic, e) == Lookup(a.quadratic, e) + Lookup(b.quadratic, e)
  {
    Combine(a, b, 1)
  }

  /** `a - b` on promoted operands. */
  function Sub(a: QM, b: QM): (r: QM)
    ensures r.offset == a.offset - b.offset
    ensures r.linear.Keys == a.linear.Keys + b.linear.Keys
    ensures r.quadratic.Keys == a.quadratic.Keys + b.quadratic.Keys
    ensures forall u :: Lin(r, u) == Lin(a, u) - Lin(b, u)
    ensures forall e :: Lookup(r.quadratic, e) == Lookup(a.quadratic, e) - Lookup(b.quadratic, e)
  {
    Combine(a, b, -1)
  }

  /** `c * q` for a numeric constant `c`: every entry scaled, every key kept. */
  function Scale(c: int, q: QM): (r: QM)
    ensures r.offset == c * q.offset
    ensures r.linear.Keys == q.linear.Keys && r.quadratic.Keys == q.quadratic.Keys
    ensures forall u :: Lin(r, u) == c * Lin(q, u)
    ensures forall e :: Lookup(r.quadratic, e) == c * Lookup(q.quadratic, e)
    ensures WellFormed(q) ==> WellFormed(r)
  {
    QM(c * q.offset, ScaleMap(c, q.linear), ScaleMap(c, q.quadratic))
  }

  /** Unary minus: every coefficient negated, every key kept. */
  function Neg(q: QM): (r: QM)
    ensures r.offset == -q.offset
    ensures r.linear.Keys == q.linear.Keys && r.quadratic.Keys == q.quadratic.Keys
    ensures forall u :: Lin(r, u) == -Lin(q, u)
    ensures forall e :: Lookup(r.quadratic, e) == -Lookup(q.quadratic, e)
  {
    Scale(-1, q)
  }

  // ---------------------------------------------------------------------------
  // Laws of addition, subtraction and scaling
  // ---------------------------------------------------------------------------

  /** Two coefficient maps with the same keys and the same coefficients are equal. */
  lemma MapsEqual<K(!new)>(m: map<K, int>, n: map<K, int>)
    requires m.Keys == n.Keys
    requires forall k :: Lookup(m, k) == Lookup(n, k)
    ensures m == n
  {
    forall k | k in m
      ensures m[k] == n[k]
    {
      assert Lookup(m, k) == Lookup(n, k);
    }
  }

  lemma MergeMapsCommutative<K(!new)>(m: map<K, int>, n: map<K, int>)
    ensures MergeMaps(m, n, 1) == MergeMaps(n, m, 1)
  {
    MapsEqual(MergeMaps(m, n, 1), MergeMaps(n, m, 1));
  }

  lemma MergeMapsAssociative<K(!new)>(m: map<K, int>, n: map<K, int>, p: map<K, int>)
    ensures MergeMaps(MergeMaps(m, n, 1), p, 1) == MergeMaps(m, MergeMaps(n, p, 1), 1)
  {
    var left := MergeMaps(MergeMaps(m, n, 1), p, 1);
    var right := MergeMaps(m, MergeMaps(n, p, 1), 1);
    forall k
      ensures Lookup(left, k) == Lookup(right, k)
    {
      assert Lookup(left, k) == Lookup(m, k) + Lookup(n, k) + Lookup(p, k);
    }
    MapsEqual(left, right);
  }

  lemma MergeMapsEmpty<K(!new)>(m: map<K, int>)
    ensures MergeMaps(map[], m, 1) == m
    ensures MergeMaps(m, map[], 1) == m
  {
    MapsEqual(MergeMaps(map[], m, 1), m);
    MapsEqual(MergeMaps(m, map[], 1), m);
  }

  /** Merging with scale s is merging the map scaled by s. */
  lemma MergeMapsScaled<K(!new)>(m: map<K, int>, n: map<K, int>, s: int)
    ensures MergeMaps(m, n, s) == MergeMaps(m, ScaleMap(s, n), 1)
  {
    MapsEqual(MergeMaps(m, n, s), MergeMaps(m, ScaleMap(s, n), 1));
  }

  lemma ScaleMapOne<K(!new)>(m: map<K, int>)
    ensures ScaleMap(1, m) == m
  {
    MapsEqual(ScaleMap(1, m), m);
  }

  lemma IntMulAssociative(c: int, d: int, x: int)
    ensures c * (d * x) == (c * d) * x
  {
  }

  lemma ScaleMapCompose<K(!new)>(c: int, d: int, m: map<K, int>)
    ensures ScaleMap(c, ScaleMap(d, m)) == ScaleMap(c * d, m)
  {
    forall k
      ensures Lookup(ScaleMap(c, ScaleMap(d, m)), k) == Lookup(ScaleMap(c * d, m), k)
    {
      IntMulAssociative(c, d, Lookup(m, k));
    }
    MapsEqual(ScaleMap(c, ScaleMap(d, m)), ScaleMap(c * d, m));
  }

  lemma ScaleMapDistributes<K(!new)>(c: int, m: map<K, int>, n: map<K, int>)
    ensures ScaleMap(c, MergeMaps(m, n, 1)) == MergeMaps(ScaleMap(c, m), ScaleMap(c, n), 1)
  {
    forall k
      ensures Lookup(ScaleMap(c, MergeMaps(m, n, 1)), k)
              == Lookup(MergeMaps(ScaleMap(c, m), ScaleMap(c, n), 1), k)
    {
      RingDistributes(c, Lookup(m, k), Lookup(n, k));
    }
    MapsEqual(ScaleMap(c, MergeMaps(m, n, 1)), MergeMaps(ScaleMap(c, m), ScaleMap(c, n), 1));
  }

  lemma AddCommutative(a: QM, b: QM)
    ensures Add(a, b) == Add(b, a)
  {
    MergeMapsCommutative(a.linear, b.linear);
    MergeMapsCommutative(a.quadratic, b.quadratic);
  }

  lemma AddAssociative(a: QM, b: QM, c: QM)
    ensures Add(Add(a, b), c) == Add(a, Add(b, c))
  {
    MergeMapsAssociative(a.linear, b.linear, c.linear);
    MergeMapsAssociative(a.quadratic, b.quadratic, c.quadratic);
  }

  /** The constant 0 is neutral on either side: `0 + q == q == q + 0`. */
  lemma AddZero(q: QM)
    ensures Add(Constant(0), q) == q
    ensures Add(q, Constant(0)) == q
  {
    MergeMapsEmpty(q.linear);
    MergeMapsEmpty(q.quadratic);
  }

  /** Subtraction is addition of the right operand scaled by -1. */
  lemma SubIsAddNeg(a: QM, b: QM)
    ensures Sub(a, b) == Add(a, Neg(b))
  {
    MergeMapsScaled(a.linear, b.linear, -1);
    MergeMapsScaled(a.quadratic, b.quadratic, -1);
  }

  /** `q - q` keeps every key of `q`, each with coefficient 0 (nothing is pruned). */
  lemma SubSelfKeepsKeys(q: QM)
    ensures Sub(q, q).offset == 0
    ensures Sub(q, q).linear.Keys == q.linear.Keys
    ensures Sub(q, q).quadratic.Keys == q.quadratic.Keys
    ensures forall u :: u in q.linear ==> Sub(q, q).linear[u] == 0
    ensures forall e :: e in q.quadratic ==> Sub(q, q).quadratic[e] == 0
  {
    forall u | u in q.linear
      ensures Sub(q, q).linear[u] == 0
    {
      assert Lin(Sub(q, q), u) == 0;
    }
    forall e | e in q.quadratic
      ensures Sub(q, q).quadratic[e] == 0
    {
      assert Lookup(Sub(q, q).quadratic, e) == 0;
    }
  }

  lemma ScaleOne(q: QM)
    ensures Scale(1, q) == q
  {
    ScaleMapOne(q.linear);
    ScaleMapOne(q.quadratic);
  }

  lemma ScaleScale(c: int, d: int, q: QM)
    ensures Scale(c, Scale(d, q)) == Scale(c * d, q)
  {
    IntMulAssociative(c, d, q.offset);
    ScaleMapCompose(c, d, q.linear);
    ScaleMapCompose(c, d, q.quadratic);
  }

  /** Scaling distributes over addition. */
  lemma ScaleDistributes(c: int, a: QM, b: QM)
    ensures Scale(c, Add(a, b)) == Add(Scale(c, a), Scale(c, b))
  {
    RingDistributes(c, a.offset, b.offset);
    ScaleMapDistributes(c, a.linear, b.linear);
    ScaleMapDistributes(c, a.quadratic, b.quadratic);
  }

  // ---------------------------------------------------------------------------
  // Multiplication
  // ---------------------------------------------------------------------------

  lemma RingDistributes(x: int, y: int, z: int)
    ensures x * (y + z) == x * y + x * z
    ensures (y + z) * x == y * x + z * x
  {
  }

  /** Scaling by a sum of two constants is the sum of the two scalings. */
  lemma ScaleMapAddScalars<K(!new)>(c: int, d: int, m: map<K, int>)
    ensures ScaleMap(c + d, m) == MergeMaps(ScaleMap(c, m), ScaleMap(d, m), 1)
  {
    forall k
      ensures Lookup(ScaleMap(c + d, m), k) == Lookup(MergeMaps(ScaleMap(c, m), ScaleMap(d, m), 1), k)
    {
      RingDistributes(Lookup(m, k), c, d);
    }
    MapsEqual(ScaleMap(c + d, m), MergeMaps(ScaleMap(c, m), ScaleMap(d, m), 1));
  }

  /** (p + q) + (r + s) == (p + r) + (q + s), key by key. */
  lemma MergeMapsInterchange<K(!new)>(p: map<K, int>, q: map<K, int>, r: map<K, int>, s: map<K, int>)
    ensures MergeMaps(MergeMaps(p, q, 1), MergeMaps(r, s, 1), 1)
            == MergeMaps(MergeMaps(p, r, 1), MergeMaps(q, s, 1), 1)
  {
    var left := MergeMaps(MergeMaps(p, q, 1), MergeMaps(r, s, 1), 1);
    var right := MergeMaps(MergeMaps(p, r, 1), MergeMaps(q, s, 1), 1);
    forall k
      ensures Lookup(left, k) == Lookup(right, k)
    {
      assert Lookup(left, k) == Lookup(p, k) + Lookup(q, k) + Lookup(r, k) + Lookup(s, k);
    }
    MapsEqual(left, right);
  }

  /** `x * m + y * n`, key by key: how each operand's offset scales the other's entries. */
  function ScaledSum<K(!new)>(x: int, m: map<K, int>, y: int, n: map<K, int>): map<K, int>
  {
    MergeMaps(ScaleMap(x, m), ScaleMap(y, n), 1)
  }

  lemma ScaledSumDistributes<K(!new)>(b0: int, c0: int, bc0: int, m: map<K, int>,
                                     a0: int, nb: map<K, int>, nc: map<K, int>, nbc: map<K, int>)
    requires bc0 == b0 + c0 && nbc == MergeMaps(nb, nc, 1)
    ensures ScaledSum(bc0, m, a0, nbc) == MergeMaps(ScaledSum(b0, m, a0, nb), ScaledSum(c0, m, a0, nc), 1)
  {
    var sb, sc := ScaleMap(b0, m), ScaleMap(c0, m);
    var tb, tc := ScaleMap(a0, nb), ScaleMap(a0, nc);
    calc {
      ScaledSum(bc0, m, a0, nbc);
      MergeMaps(ScaleMap(bc0, m), ScaleMap(a0, nbc), 1);
      { ScaleMapAddScalars(b0, c0, m); }
      MergeMaps(MergeMaps(sb, sc, 1), ScaleMap(a0, nbc), 1);
      { ScaleMapDistributes(a0, nb, nc); }
      MergeMaps(MergeMaps(sb, sc, 1), MergeMaps(tb, tc, 1), 1);
      { MergeMapsInterchange(sb, sc, tb, tc); }
      MergeMaps(MergeMaps(sb, tb, 1), MergeMaps(sc, tc, 1), 1);
    }
  }

  /** The keys of the products of a linear term of `la` with a linear term of `lb`. */
  function CrossKeys(la: map<Label, int>, lb: map<Label, int>): set<Edge>
  {
    set u, v | u in la.Keys && v in lb.Keys && u != v :: MakeEdge(u, v)
  }

  /** What the linear terms `la` and `lb` contribute to the product term of `e`. */
  function CrossCoef(la: map<Label, int>, lb: map<Label, int>, e: Edge): int
  {
    Lookup(la, e.lo) * Lookup(lb, e.hi) + Lookup(la, e.hi) * Lookup(lb, e.lo)
  }

  /** The product of two linear parts: a quadratic entry for every pair of distinct labels. */
  function CrossMap(la: map<Label, int>, lb: map<Label, int>): (r: map<Edge, int>)
    ensures r.Keys == CrossKeys(la, lb)
    ensures forall e :: e in r ==> Canonical(e)
  {
    map e | e in CrossKeys(la, lb) :: CrossCoef(la, lb, e)
  }

  /** The cross product's coefficient on any canonical pair, whether or not the pair is a key. */
  lemma CrossMapLookup(la: map<Label, int>, lb: map<Label, int>, e: Edge)
    requires Canonical(e)
    ensures Lookup(CrossMap(la, lb), e) == CrossCoef(la, lb, e)
  {
    MakeEdgeOfCanonical(e);
    MakeEdgeSymmetric(e.lo, e.hi);
    if e.lo in la && e.hi in lb {
      assert MakeEdge(e.lo, e.hi) in CrossKeys(la, lb);
    } else if e.hi in la && e.lo in lb {
      assert MakeEdge(e.hi, e.lo) in CrossKeys(la, lb);
    }
  }

  lemma CrossKeysSymmetric(la: map<Label, int>, lb: map<Label, int>)
    ensures CrossKeys(la, lb) == CrossKeys(lb, la)
  {
    forall e | e in CrossKeys(la, lb)
      ensures e in CrossKeys(lb, la)
    {
      var u, v :| u in la.Keys && v in lb.Keys && u != v && e == MakeEdge(u, v);
      MakeEdgeSymmetric(u, v);
    }
    forall e | e in CrossKeys(lb, la)
      ensures e in CrossKeys(la, lb)
    {
      var u, v :| u in lb.Keys && v in la.Keys && u != v && e == MakeEdge(u, v);
      MakeEdgeSymmetric(u, v);
    }
  }

  lemma CrossMapSymmetric(la: map<Label, int>, lb: map<Label, int>)
    ensures CrossMap(la, lb) == CrossMap(lb, la)
  {
    CrossKeysSymmetric(la, lb);
    forall e | e in CrossMap(la, lb)
      ensures Lookup(CrossMap(la, lb), e) == Lookup(CrossMap(lb, la), e)
    {
      assert CrossCoef(la, lb, e) == CrossCoef(lb, la, e);
    }
    MapsEqual(CrossMap(la, lb), CrossMap(lb, la));
  }

  lemma CrossCoefDistributes(la: map<Label, int>, lb: map<Label, int>, lc: map<Label, int>, e: Edge)
    ensures CrossCoef(la, MergeMaps(lb, lc, 1), e) == CrossCoef(la, lb, e) + CrossCoef(la, lc, e)
  {
    var lbc := MergeMaps(lb, lc, 1);
    RingDistributes(Lookup(la, e.lo), Lookup(lb, e.hi), Lookup(lc, e.hi));
    RingDistributes(Lookup(la, e.hi), Lookup(lb, e.lo), Lookup(lc, e.lo));
    assert Lookup(lbc, e.hi) == Lookup(lb, e.hi) + Lookup(lc, e.hi);
    assert Lookup(lbc, e.lo) == Lookup(lb, e.lo) + Lookup(lc, e.lo);
  }

  /** The cross product is additive in its second argument. */
  lemma CrossMapDistributes(la: map<Label, int>, lb: map<Label, int>, lc: map<Label, int>, lbc: map<Label, int>)
    requires lbc == MergeMaps(lb, lc, 1)
    ensures CrossMap(la, lbc) == MergeMaps(CrossMap(la, lb), CrossMap(la, lc), 1)
  {
    var left := CrossMap(la, MergeMaps(lb, lc, 1));
    var right := MergeMaps(CrossMap(la, lb), CrossMap(la, lc), 1);
    assert left.Keys == right.Keys;
    forall e | e in left
      ensures Lookup(left, e) == Lookup(right, e)
    {
      CrossMapLookup(la, MergeMaps(lb, lc, 1), e);
      CrossMapLookup(la, lb, e);
      CrossMapLookup(la, lc, e);
      CrossCoefDistributes(la, lb, lc, e);
    }
    MapsEqual(left, right);
  }

  /** Scaling a single entry. */
  lemma ScaleSingleton<K(!new)>(c: int, k: K, x: int)
    ensures ScaleMap(c, map[k := x]) == map[k := c * x]
  {
    MapsEqual(ScaleMap(c, map[k := x]), map[k := c * x]);
  }

  /** Merging two single entries on distinct keys. */
  lemma MergeSingletons<K(!new)>(k1: K, x1: int, k2: K, x2: int)
    requires k1 != k2
    ensures MergeMaps(map[k1 := x1], map[k2 := x2], 1) == map[k1 := x1, k2 := x2]
  {
    MapsEqual(MergeMaps(map[k1 := x1], map[k2 := x2], 1), map[k1 := x1, k2 := x2]);
  }

  /** The cross product of single terms x*u and y*v on labels u before v is x*y on the pair. */
  lemma CrossMapSingletons(u: Label, x: int, v: Label, y: int)
    requires Below(u, v)
    ensures CrossMap(map[u := x], map[v := y]) == map[Edge(u, v) := x * y]
  {
    MakeEdgeOfCanonical(Edge(u, v));
    var la, lb := map[u := x], map[v := y];
    assert CrossKeys(la, lb) == {Edge(u, v)};
    CrossMapLookup(la, lb, Edge(u, v));
    MapsEqual(CrossMap(la, lb), map[Edge(u, v) := x * y]);
  }

  /** The linear part of a*b. */
  function ProductLinear(a: QM, b: QM): map<Label, int>
  {
    ScaledSum(b.offset, a.linear, a.offset, b.linear)
  }

  /** The quadratic part of a*b, when a*b has degree at most 2. */
  function ProductQuadratic(a: QM, b: QM): map<Edge, int>
  {
    MergeMaps(ScaledSum(b.offset, a.quadratic, a.offset, b.quadratic), CrossMap(a.linear, b.linear), 1)
  }

  /** The polynomial product a*b, when it has degree at most 2. */
  function Product(a: QM, b: QM): QM
  {
    QM(a.offset * b.offset, ProductLinear(a, b), ProductQuadratic(a, b))
  }

  lemma ProductLinearDistributes(a: QM, b: QM, c: QM)
    ensures ProductLinear(a, Add(b, c)) == MergeMaps(ProductLinear(a, b), ProductLinear(a, c), 1)
  {
    var bc := Add(b, c);
    ScaledSumDistributes(b.offset, c.offset, bc.offset, a.linear, a.offset, b.linear, c.linear, bc.linear);
  }

  lemma ProductQuadraticDistributes(a: QM, b: QM, c: QM)
    ensures ProductQuadratic(a, Add(b, c)) == MergeMaps(ProductQuadratic(a, b), ProductQuadratic(a, c), 1)
  {
    var bc := Add(b, c);
    var ssb := ScaledSum(b.offset, a.quadratic, a.offset, b.quadratic);
    var ssc := ScaledSum(c.offset, a.quadratic, a.offset, c.quadratic);
    var xb, xc := CrossMap(a.linear, b.linear), CrossMap(a.linear, c.linear);
    ScaledSumDistributes(b.offset, c.offset, bc.offset, a.quadratic, a.offset, b.quadratic, c.quadratic, bc.quadratic);
    CrossMapDistributes(a.linear, b.linear, c.linear, bc.linear);
    MergeMapsInterchange(ssb, ssc, xb, xc);
  }

  /** A model with no linear and no quadratic terms: a constant. */
  predicate IsConstant(q: QM)
  {
    q.linear == map[] && q.quadratic == map[]
  }

  /** The product a*b would hold a term of degree three or more. */
  predicate ExceedsDegree(a: QM, b: QM)
  {
    (a.quadratic != map[] && !IsConstant(b)) || (b.quadratic != map[] && !IsConstant(a))
  }

  /** Both operands have a linear term on some common label, so a*b would square it. */
  predicate SharesLabel(a: QM, b: QM)
  {
    !(a.linear.Keys !! b.linear.Keys)
  }

  /**
   * `a * b` by polynomial multiplication: each operand's offset scales the
   * other operand's entries, and the linear terms c*u and d*v on distinct
   * labels contribute c*d to the pair {u, v}. A product of degree three or
   * more is an error; so is the square of a label, which this model does not
   * canonicalise.
   */
  function Mul(a: QM, b: QM): (r: Result<QM>)
    ensures r == Err(DegreeExceeded) <==> ExceedsDegree(a, b)
    ensures r == Err(SelfProduct) <==> !ExceedsDegree(a, b) && SharesLabel(a, b)
    ensures r.Ok? ==> r.value.offset == a.offset * b.offset
  {
    if ExceedsDegree(a, b) then Err(DegreeExceeded)
    else if SharesLabel(a, b) then Err(SelfProduct)
    else Ok(Product(a, b))
  }

  /**
   * The keys of a*b: the linear keys of both operands, and the quadratic keys
   * of both plus the pair of every two distinct linear labels across them.
   */
  lemma MulKeys(a: QM, b: QM)
    requires Mul(a, b).Ok?
    ensures Mul(a, b).value.linear.Keys == a.linear.Keys + b.linear.Keys
    ensures Mul(a, b).value.quadratic.Keys == a.quadratic.Keys + b.quadratic.Keys + CrossKeys(a.linear, b.linear)
    ensures WellFormed(a) && WellFormed(b) ==> WellFormed(Mul(a, b).value)
  {
  }

  /** The linear coefficient of u in a*b: each offset times the other operand's coefficient of u. */
  lemma MulLinear(a: QM, b: QM, u: Label)
    requires Mul(a, b).Ok?
    ensures Lin(Mul(a, b).value, u) == b.offset * Lin(a, u) + a.offset * Lin(b, u)
  {
  }

  /**
   * The coefficient of u*v in a*b: each offset times the other operand's
   * coefficient of u*v, plus c*d for the linear terms c*u and d*v on either side.
   */
  lemma MulQuadratic(a: QM, b: QM, u: Label, v: Label)
    requires Mul(a, b).Ok?
    requires u != v
    ensures Quad(Mul(a, b).value, u, v)
            == b.offset * Quad(a, u, v) + a.offset * Quad(b, u, v) + Lin(a, u) * Lin(b, v) + Lin(a, v) * Lin(b, u)
  {
    var e := MakeEdge(u, v);
    CrossMapLookup(a.linear, b.linear, e);
  }

  /** `a * b == b * a`, an error on one side exactly when on the other. */
  lemma MulCommutative(a: QM, b: QM)
    ensures Mul(a, b) == Mul(b, a)
  {
    if Mul(a, b).Ok? {
      assert Mul(a, b).value.linear == ProductLinear(a, b);
      MergeMapsCommutative(ScaleMap(b.offset, a.linear), ScaleMap(a.offset, b.linear));
      MergeMapsCommutative(ScaleMap(b.offset, a.quadratic), ScaleMap(a.offset, b.quadratic));
      CrossMapSymmetric(a.linear, b.linear);
    }
  }

  lemma ScaleMapEmpty<K(!new)>(c: int, m: map<K, int>)
    requires m == map[]
    ensures ScaleMap(c, m) == m
  {
    MapsEqual(ScaleMap(c, m), m);
  }

  /** A constant on the left scales the other operand: `c * q == Scale(c, q)`. */
  lemma MulByConstantLeft(c: int, q: QM)
    ensures Mul(Constant(c), q) == Ok(Scale(c, q))
  {
    ScaleMapEmpty(q.offset, Constant(c).linear);
    ScaleMapEmpty(q.offset, Constant(c).quadratic);
    MergeMapsEmpty(ScaleMap(c, q.linear));
    MergeMapsEmpty(ScaleMap(c, q.quadratic));
    assert CrossKeys(map[], q.linear) == {};
    assert CrossMap(map[], q.linear) == map[];
  }

  /** A constant on the right scales the other operand: `q * c == Scale(c, q)`. */
  lemma MulByConstantRight(c: int, q: QM)
    ensures Mul(q, Constant(c)) == Ok(Scale(c, q))
  {
    MulByConstantLeft(c, q);
    MulCommutative(q, Constant(c));
  }

  lemma ExceedsDegreeOfAdd(a: QM, b: QM, c: QM)
    ensures ExceedsDegree(a, Add(b, c)) <==> ExceedsDegree(a, b) || ExceedsDegree(a, c)
  {
    var bc := Add(b, c);
    assert bc.linear == map[] <==> b.linear == map[] && c.linear == map[] by {
      if b.linear != map[] {
        var u :| u in b.linear;
        assert u in bc.linear;
      }
      if c.linear != map[] {
        var u :| u in c.linear;
        assert u in bc.linear;
      }
    }
    assert bc.quadratic == map[] <==> b.quadratic == map[] && c.quadratic == map[] by {
      if b.quadratic != map[] {
        var e :| e in b.quadratic;
        assert e in bc.quadratic;
      }
      if c.quadratic != map[] {
        var e :| e in c.quadratic;
        assert e in bc.quadratic;
      }
    }
  }

  lemma SharesLabelOfAdd(a: QM, b: QM, c: QM)
    ensures SharesLabel(a, Add(b, c)) <==> SharesLabel(a, b) || SharesLabel(a, c)
  {
  }

  lemma ProductOfAddOffset(a: QM, b: QM, c: QM)
    ensures Product(a, Add(b, c)).offset == Product(a, b).offset + Product(a, c).offset
  {
    calc {
      Product(a, Add(b, c)).offset;
      a.offset * Add(b, c).offset;
      a.offset * (b.offset + c.offset);
      { RingDistributes(a.offset, b.offset, c.offset); }
      a.offset * b.offset + a.offset * c.offset;
    }
  }

  lemma ProductOfAddLinear(a: QM, b: QM, c: QM)
    ensures Product(a, Add(b, c)).linear == Add(Product(a, b), Product(a, c)).linear
  {
    ProductLinearDistributes(a, b, c);
  }

  lemma ProductOfAddQuadratic(a: QM, b: QM, c: QM)
    ensures Product(a, Add(b, c)).quadratic == Add(Product(a, b), Product(a, c)).quadratic
  {
    ProductQuadraticDistributes(a, b, c);
  }

  /** The polynomial product distributes over addition: `a * (b + c) == a*b + a*c`. */
  lemma ProductOfAdd(a: QM, b: QM, c: QM)
    ensures Product(a, Add(b, c)) == Add(Product(a, b), Product(a, c))
  {
    ProductOfAddOffset(a, b, c);
    ProductOfAddLinear(a, b, c);
    ProductOfAddQuadratic(a, b, c);
  }

  /**
   * Multiplication distributes over addition: `a * (b + c) == a*b + a*c`,
   * and the left side is an error exactly when one of the products is.
   */
  lemma MulDistributesOverAdd(a: QM, b: QM, c: QM)
    ensures Mul(a, Add(b, c)).Ok? <==> Mul(a, b).Ok? && Mul(a, c).Ok?
    ensures Mul(a, Add(b, c)).Ok? ==> Mul(a, Add(b, c)).value == Add(Mul(a, b).value, Mul(a, c).value)
  {
    ExceedsDegreeOfAdd(a, b, c);
    SharesLabelOfAdd(a, b, c);
    if Mul(a, Add(b, c)).Ok? {
      ProductOfAdd(a, b, c);
    }
  }

  // ---------------------------------------------------------------------------
  // Sums of operand sequences
  // ---------------------------------------------------------------------------

  /** The left fold `f(...f(f(z, t0), t1)..., tn-1)`. */
  function Fold<A, T>(f: (A, T) -> A, z: A, ts: seq<T>): A
  {
    if ts == [] then z else f(Fold(f, z, ts[..|ts| - 1]), ts[|ts| - 1])
  }

  /** A step function whose last two steps can be taken in either order. */
  ghost predicate RightCommutative<A(!new), T(!new)>(f: (A, T) -> A)
  {
    forall r: A, x: T, y: T :: f(f(r, x), y) == f(f(r, y), x)
  }

  lemma FoldSnoc<A, T>(f: (A, T) -> A, z: A, ts: seq<T>, t: T)
    ensures Fold(f, z, ts + [t]) == f(Fold(f, z, ts), t)
  {
    assert (ts + [t])[..|ts|] == ts;
  }

  /** A fold over four elements is the chain of its four steps. */
  lemma FoldOfFour<A, T>(f: (A, T) -> A, z: A, a: T, b: T, c: T, d: T)
    ensures Fold(f, z, [a, b, c, d]) == f(f(f(f(z, a), b), c), d)
  {
    FoldSnoc(f, z, [], a);
    assert [] + [a] == [a];
    FoldSnoc(f, z, [a], b);
    assert [a] + [b] == [a, b];
    FoldSnoc(f, z, [a, b], c);
    assert [a, b] + [c] == [a, b, c];
    FoldSnoc(f, z, [a, b, c], d);
    assert [a, b, c] + [d] == [a, b, c, d];
  }

  /** With a right-commutative step any one element can be taken out and folded last. */
  lemma {:induction false} FoldExtract<A(!new), T(!new)>(f: (A, T) -> A, z: A, ts: seq<T>, j: nat)
    requires RightCommutative(f)
    requires j < |ts|
    ensures Fold(f, z, ts) == f(Fold(f, z, ts[..j] + ts[j + 1..]), ts[j])
    decreases |ts|
  {
    var n := |ts|;
    var init := ts[..n - 1];
    if j == n - 1 {
      assert ts[..j] + ts[j + 1..] == init;
    } else {
      FoldExtract(f, z, init, j);
      var rest := init[..j] + init[j + 1..];
      assert init[j] == ts[j];
      assert rest + [ts[n - 1]] == ts[..j] + ts[j + 1..];
      FoldSnoc(f, z, rest, ts[n - 1]);
    }
  }

  /** Removing the element at `j` removes one occurrence of it from the multiset. */
  lemma MultisetRemoveAt<T>(t: seq<T>, j: nat)
    requires j < |t|
    ensures multiset(t[..j] + t[j + 1..]) == multiset(t) - multiset{t[j]}
  {
    assert t == t[..j] + [t[j]] + t[j + 1..];
  }

  /** With a right-commutative step the fold does not depend on the order of the elements. */
  lemma {:induction false} FoldPermutation<A(!new), T(!new)>(f: (A, T) -> A, z: A, s: seq<T>, t: seq<T>)
    requires RightCommutative(f)
    requires multiset(s) == multiset(t)
    ensures Fold(f, z, s) == Fold(f, z, t)
    decreases |s|
  {
    if s == [] {
      assert |t| == |multiset(t)|;
    } else {
      var n := |s|;
      var last := s[n - 1];
      assert last in multiset(t);
      var j :| 0 <= j < |t| && t[j] == last;
      var rest := t[..j] + t[j + 1..];
      MultisetRemoveAt(s, n - 1);
      assert s[..n - 1] + s[n..] == s[..n - 1];
      MultisetRemoveAt(t, j);
      FoldPermutation(f, z, s[..n - 1], rest);
      FoldExtract(f, z, t, j);
    }
  }

  /** One step of a sum: add the promotion of the next operand to the running total. */
  function AddTerm(r: QM, t: Operand): QM
  {
    Add(r, Promote(t))
  }

  /** The left fold of `+` that starts from the constant 0: `((0 + t0) + t1) + ...`. */
  function Sum(ts: seq<Operand>): (r: QM)
    ensures ts == [] ==> r == Constant(0)
  {
    Fold(AddTerm, Constant(0), ts)
  }

  /** The last two operands of a sum can be swapped: `(r + x) + y == (r + y) + x`. */
  lemma AddSwapLast(r: QM, x: QM, y: QM)
    ensures Add(Add(r, x), y) == Add(Add(r, y), x)
  {
    AddAssociative(r, x, y);
    AddCommutative(x, y);
    AddAssociative(r, y, x);
  }

  lemma AddTermRightCommutative()
    ensures RightCommutative(AddTerm)
  {
    forall r: QM, x: Operand, y: Operand
      ensures AddTerm(AddTerm(r, x), y) == AddTerm(AddTerm(r, y), x)
    {
      AddSwapLast(r, Promote(x), Promote(y));
    }
  }

  /** Adding one more operand at the end adds its promotion to the sum. */
  lemma SumSnoc(ts: seq<Operand>, t: Operand)
    ensures Sum(ts + [t]) == Add(Sum(ts), Promote(t))
  {
    FoldSnoc(AddTerm, Constant(0), ts, t);
  }

  /** A sum of well-formed operands is well formed. */
  lemma {:induction false} SumWellFormed(ts: seq<Operand>)
    requires forall i :: 0 <= i < |ts| ==> WellFormedOperand(ts[i])
    ensures WellFormed(Sum(ts))
    decreases |ts|
  {
    if ts != [] {
      SumWellFormed(ts[..|ts| - 1]);
    }
  }

  /** The sum does not depend on the order of the operands. */
  lemma SumPermutation(s: seq<Operand>, t: seq<Operand>)
    requires multiset(s) == multiset(t)
    ensures Sum(s) == Sum(t)
  {
    AddTermRightCommutative();
    FoldPermutation(AddTerm, Constant(0), s, t);
  }
}
