/**
 * The behaviour the expression tests promise, stated over fixed variables
 * x (binary), i and j (integer) and s (spin).
 */
module SymbolicTests {
  import opened Variables
  import opened QuadraticModels
  import opened Quicksum

  const X: Variable := Variable("x", Binary)
  const I: Variable := Variable("i", Integer)
  const J: Variable := Variable("j", Integer)
  const S: Variable := Variable("s", Spin)

  /** The four operands x, i, s and 1. */
  const Fixtures: seq<Operand> := [Var(X), Var(I), Var(S), Num(1)]

  /** `2*x`, as the product of the constant 2 and x evaluates. */
  const TwoX: QM := QM(0, map["x" := 2], map[])

  /** The first step of a sum returns the promoted operand. */
  lemma AddTermToZero(t: Operand)
    ensures AddTerm(Constant(0), t) == Promote(t)
  {
    AddZero(Promote(t));
  }

  /** Adding a variable absent from `q` inserts it with coefficient 1. */
  lemma AddTermNewVariable(q: QM, v: Variable)
    requires v.name !in q.linear
    ensures AddTerm(q, Var(v)) == QM(q.offset, q.linear[v.name := 1], q.quadratic)
  {
    var r := Add(q, Promote(Var(v)));
    MapsEqual(r.linear, q.linear[v.name := 1]);
    MergeMapsEmpty(q.quadratic);
  }

  /** Adding a constant only moves the offset. */
  lemma AddTermConstant(q: QM, c: int)
    ensures AddTerm(q, Num(c)) == QM(q.offset + c, q.linear, q.quadratic)
  {
    MergeMapsEmpty(q.linear);
    MergeMapsEmpty(q.quadratic);
  }

  /** A sum of four operands is the chain of the four additions that build it. */
  lemma SumOfFour(a: Operand, b: Operand, c: Operand, d: Operand)
    ensures Sum([a, b, c, d]) == AddTerm(AddTerm(AddTerm(AddTerm(Constant(0), a), b), c), d)
  {
    FoldOfFour(AddTerm, Constant(0), a, b, c, d);
  }

  /** The additions 0 + first + i + s + 1, where `first` is x times the coefficient `cx`. */
  lemma LinearFixturesChain(first: Operand, cx: int)
    requires Promote(first) == QM(0, map["x" := cx], map[])
    ensures AddTerm(AddTerm(AddTerm(AddTerm(Constant(0), first), Var(I)), Var(S)), Num(1))
            == QM(1, map["x" := cx, "i" := 1, "s" := 1], map[])
  {
    var q1 := QM(0, map["x" := cx], map[]);
    var q2 := QM(0, map["x" := cx, "i" := 1], map[]);
    var q3 := QM(0, map["x" := cx, "i" := 1, "s" := 1], map[]);
    calc {
      AddTerm(AddTerm(AddTerm(AddTerm(Constant(0), first), Var(I)), Var(S)), Num(1));
      { AddTermToZero(first); }
      AddTerm(AddTerm(AddTerm(q1, Var(I)), Var(S)), Num(1));
      { AddTermNewVariable(q1, I); }
      AddTerm(AddTerm(q2, Var(S)), Num(1));
      { AddTermNewVariable(q2, S); }
      AddTerm(q3, Num(1));
      { AddTermConstant(q3, 1); }
      QM(1, map["x" := cx, "i" := 1, "s" := 1], map[]);
    }
  }

  /** Summing `first`, i, s and 1 in this order, where `first` is x times the coefficient `cx`. */
  lemma SumOfLinearFixtures(first: Operand, cx: int)
    requires Promote(first) == QM(0, map["x" := cx], map[])
    ensures Sum([first, Var(I), Var(S), Num(1)]) == QM(1, map["x" := cx, "i" := 1, "s" := 1], map[])
  {
    SumOfFour(first, Var(I), Var(S), Num(1));
    LinearFixturesChain(first, cx);
  }

  /** Summing x, i, s and 1 in any order gives x + i + s + 1. */
  lemma AddPermutations(p: seq<Operand>)
    requires multiset(p) == multiset(Fixtures)
    ensures Sum(p).linear == map["x" := 1, "i" := 1, "s" := 1]
    ensures Sum(p).offset == 1
    ensures Sum(p).quadratic == map[]
  {
    SumPermutation(p, Fixtures);
    SumOfLinearFixtures(Var(X), 1);
  }

  /** v - 1 for a variable v. */
  lemma VariableMinusOne(v: Variable)
    ensures Sub(Promote(Var(v)), Promote(Num(1))) == QM(-1, map[v.name := 1], map[])
  {
    var r := Sub(Promote(Var(v)), Promote(Num(1)));
    MapsEqual(r.linear, map[v.name := 1]);
  }

  lemma ProductOfShiftedLinear()
    ensures ProductLinear(QM(-1, map["i" := 1], map[]), QM(-1, map["j" := 1], map[])) == map["i" := -1, "j" := -1]
  {
    ScaleSingleton(-1, "i", 1);
    ScaleSingleton(-1, "j", 1);
    MergeSingletons("i", -1, "j", -1);
  }

  lemma ProductOfShiftedQuadratic()
    ensures ProductQuadratic(QM(-1, map["i" := 1], map[]), QM(-1, map["j" := 1], map[])) == map[Edge("i", "j") := 1]
  {
    var empty: map<Edge, int> := map[];
    ScaleMapEmpty(-1, empty);
    MergeMapsEmpty(empty);
    assert Below("i", "j");
    CrossMapSingletons("i", 1, "j", 1);
    MergeMapsEmpty(map[Edge("i", "j") := 1]);
  }

  /** (i - 1)*(j - 1), with both factors already evaluated. */
  lemma ProductOfShiftedFixtures()
    ensures Mul(QM(-1, map["i" := 1], map[]), QM(-1, map["j" := 1], map[]))
            == Ok(QM(1, map["i" := -1, "j" := -1], map[Edge("i", "j") := 1]))
  {
    ProductOfShiftedLinear();
    ProductOfShiftedQuadratic();
  }

  /** (i - 1)*(j - 1) == i*j - i - j + 1. */
  lemma Expressions()
    ensures Mul(Sub(Promote(Var(I)), Promote(Num(1))), Sub(Promote(Var(J)), Promote(Num(1))))
            == Ok(QM(1, map["i" := -1, "j" := -1], map[Edge("i", "j") := 1]))
  {
    VariableMinusOne(I);
    VariableMinusOne(J);
    ProductOfShiftedFixtures();
  }

  /** The ij coefficient of (i - 1)*(j - 1) reads as 1 whichever order the pair is named in. */
  lemma ExpressionsPairOrder()
    ensures Mul(Sub(Promote(Var(I)), Promote(Num(1))), Sub(Promote(Var(J)), Promote(Num(1)))).Ok?
    ensures Quad(Mul(Sub(Promote(Var(I)), Promote(Num(1))), Sub(Promote(Var(J)), Promote(Num(1)))).value, "i", "j") == 1
    ensures Quad(Mul(Sub(Promote(Var(I)), Promote(Num(1))), Sub(Promote(Var(J)), Promote(Num(1)))).value, "j", "i") == 1
  {
    Expressions();
    assert Below("i", "j");
    MakeEdgeSymmetric("i", "j");
  }

  /** The product of any two distinct operands among x, i, s and 1 is defined. */
  lemma MulPermutations(t0: Operand, t1: Operand)
    requires t0 in Fixtures && t1 in Fixtures && t0 != t1
    ensures Promote(t0).linear.Keys !! Promote(t1).linear.Keys
    ensures Mul(Promote(t0), Promote(t1)).Ok?
  {
  }

  /** The difference of any two distinct operands among x, i, s and 1 is defined and is t0 + (-1)*t1. */
  lemma SubPermutations(t0: Operand, t1: Operand)
    requires t0 in Fixtures && t1 in Fixtures && t0 != t1
    ensures Mul(Constant(-1), Promote(t1)).Ok?
    ensures Sub(Promote(t0), Promote(t1)) == Add(Promote(t0), Mul(Constant(-1), Promote(t1)).value)
  {
    MulByConstantLeft(-1, Promote(t1));
    SubIsAddNeg(Promote(t0), Promote(t1));
  }

  /** The sum of no operands is 0. */
  method QuickSumEmpty() returns (q: QM)
    ensures q == Constant(0)
  {
    var table := QuickSum([]);
    q := table.Value();
  }

  /** `2*x` evaluates to the model with x's coefficient 2. */
  lemma TwoXValue()
    ensures Mul(Promote(Num(2)), Promote(Var(X))) == Ok(TwoX)
  {
    MulByConstantLeft(2, Promote(Var(X)));
    MapsEqual(Scale(2, Promote(Var(X))).linear, TwoX.linear);
  }

  /** `quicksum` of 2*x, i, s and 1 in any order gives 2x + i + s + 1. */
  method QuickSumPromotion(p: seq<Operand>) returns (q: QM)
    requires multiset(p) == multiset([Expr(Mul(Promote(Num(2)), Promote(Var(X))).value), Var(I), Var(S), Num(1)])
    ensures q.linear == map["x" := 2, "i" := 1, "s" := 1]
    ensures q.offset == 1
    ensures q.quadratic == map[]
  {
    TwoXValue();
    var table := QuickSum(p);
    q := table.Value();
    var canonical := [Expr(TwoX), Var(I), Var(S), Num(1)];
    SumPermutation(p, canonical);
    SumOfLinearFixtures(Expr(TwoX), 2);
  }

  /** `quicksum([x])` is a new table, equal in content to x. */
  method QuickSumCopy() returns (newx: TermTable)
    ensures fresh(newx)
    ensures newx.Value() == Promote(Var(X))
  {
    newx := QuickSum([Var(X)]);
    SumSnoc([], Var(X));
    assert [] + [Var(X)] == [Var(X)];
    MergeMapsEmpty(Promote(Var(X)).linear);
  }
}
