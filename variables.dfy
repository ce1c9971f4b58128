/**
 * Variables of the symbolic algebra and the keys of its terms.
 *
 * A variable is a label tagged with the kind of value it ranges over. A
 * quadratic term is keyed by an unordered pair of two distinct labels; the
 * pair is stored in one canonical spelling, the one whose first label comes
 * first in a lexicographic order on labels, so that (u, v) and (v, u) name the
 * same entry.
 */
module Variables {

  type Label = string

  /** The value domain of a variable: {0, 1}, the integers, or {-1, +1}. */
  datatype Kind = Binary | Integer | Spin

  datatype Variable = Variable(name: Label, kind: Kind)

  /** Strict lexicographic order on labels (character by character, a proper prefix first). */
  predicate Below(a: Label, b: Label)
    decreases |a|
  {
    if |a| == 0 then |b| > 0
    else if |b| == 0 then false
    else if a[0] == b[0] then Below(a[1..], b[1..])
    else a[0] < b[0]
  }

  lemma {:induction false} BelowIrreflexive(a: Label)
    ensures !Below(a, a)
    decreases |a|
  {
    if |a| > 0 {
      BelowIrreflexive(a[1..]);
    }
  }

  lemma {:induction false} BelowAsymmetric(a: Label, b: Label)
    ensures Below(a, b) ==> !Below(b, a)
    decreases |a|
  {
    if |a| > 0 && |b| > 0 && a[0] == b[0] {
      BelowAsymmetric(a[1..], b[1..]);
    }
  }

  /** Any two distinct labels are ordered one way or the other. */
  lemma {:induction false} BelowConnected(a: Label, b: Label)
    requires a != b
    ensures Below(a, b) || Below(b, a)
    decreases |a|
  {
    if |a| > 0 && |b| > 0 && a[0] == b[0] {
      assert a == [a[0]] + a[1..] && b == [b[0]] + b[1..];
      BelowConnected(a[1..], b[1..]);
    }
  }

  /** An unordered pair of labels, stored as (lo, hi). */
  datatype Edge = Edge(lo: Label, hi: Label)

  /** The canonical spelling of a pair: two distinct labels, the smaller first. */
  predicate Canonical(e: Edge)
  {
    Below(e.lo, e.hi)
  }

  /** The key of the quadratic term between two distinct labels `u` and `v`. */
  function MakeEdge(u: Label, v: Label): (e: Edge)
    requires u != v
    ensures Canonical(e)
    ensures (e.lo == u && e.hi == v) || (e.lo == v && e.hi == u)
  {
    BelowConnected(u, v);
    if Below(u, v) then Edge(u, v) else Edge(v, u)
  }

  /** The key does not depend on the order the two labels are given in. */
  lemma MakeEdgeSymmetric(u: Label, v: Label)
    requires u != v
    ensures MakeEdge(u, v) == MakeEdge(v, u)
  {
    BelowAsymmetric(u, v);
  }

  /** Every canonical pair is the key of the term between its two labels. */
  lemma MakeEdgeOfCanonical(e: Edge)
    requires Canonical(e)
    ensures e.lo != e.hi && MakeEdge(e.lo, e.hi) == e
  {
    BelowIrreflexive(e.lo);
  }

  /** Two label pairs have the same key exactly when they are the same unordered pair. */
  lemma MakeEdgeInjective(u: Label, v: Label, u': Label, v': Label)
    requires u != v && u' != v'
    ensures MakeEdge(u, v) == MakeEdge(u', v') <==> (u == u' && v == v') || (u == v' && v == u')
  {
    MakeEdgeSymmetric(u', v');
  }
}
