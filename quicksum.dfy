/**
 * `quicksum`: the sum of a sequence of operands, built by merging every term
 * into one mutable table of coefficients instead of allocating a new model for
 * every intermediate `+`.
 *
 * The table starts empty (the constant 0) and each operand, promoted to a
 * model, is merged into it entry by entry. The result is a new table even when
 * the sequence holds a single model, so the caller never gets one of its own
 * operands back.
 */
module Quicksum {
  import opened Variables
  import opened QuadraticModels

  /**
   * Adds `scale` times every entry of `src` into `dst`, one key at a time;
   * keys of `src` that `dst` lacks are inserted.
   */
  method MergeInto<K(!new)>(dst: map<K, int>, src: map<K, int>, scale: int) returns (r: map<K, int>)
    ensures r == MergeMaps(dst, src, scale)
  {
    r := dst;
    var todo := src.Keys;
    ghost var done: set<K> := {};
    while todo != {}
      invariant todo + done == src.Keys && todo !! done
      invariant r.Keys == dst.Keys + done
      invariant forall k :: Lookup(r, k) == Lookup(dst, k) + (if k in done then scale * src[k] else 0)
      decreases todo
    {
      var k :| k in todo;
      r := r[k := Lookup(r, k) + scale * src[k]];
      todo := todo - {k};
      done := done + {k};
    }
    MapsEqual(r, MergeMaps(dst, src, scale));
  }

  /** A mutable quadratic model: an offset and the two coefficient tables. */
  class TermTable {
    var offset: int
    var linear: map<Label, int>
    var quadratic: map<Edge, int>

    /** The model the table currently holds. */
    function Value(): QM
      reads this
    {
      QM(offset, linear, quadratic)
    }

    /** An empty table: the constant 0. */
    constructor ()
      ensures Value() == Constant(0)
    {
      offset := 0;
      linear := map[];
      quadratic := map[];
    }

    /** Adds `scale` times `src` into the table in place. */
    method Merge(src: QM, scale: int)
      modifies this
      ensures Value() == Combine(old(Value()), src, scale)
    {
      offset := offset + scale * src.offset;
      linear := MergeInto(linear, src.linear, scale);
      quadratic := MergeInto(quadratic, src.quadratic, scale);
    }
  }

  /**
   * The sum of `terms`, accumulated in place in a new table: the same model as
   * the left fold `((0 + t0) + t1) + ...`.
   */
  method QuickSum(terms: seq<Operand>) returns (table: TermTable)
    ensures fresh(table)
    ensures table.Value() == Sum(terms)
  {
    table := new TermTable();
    for k := 0 to |terms|
      invariant table.Value() == Sum(terms[..k])
    {
      ghost var before := table.Value();
      table.Merge(Promote(terms[k]), 1);
      assert table.Value() == Add(before, Promote(terms[k]));
      SumSnoc(terms[..k], terms[k]);
      assert terms[..k + 1] == terms[..k] + [terms[k]];
    }
    assert terms[..|terms|] == terms;
  }
}
