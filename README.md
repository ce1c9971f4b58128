# dimod symbolic expressions, modelled in Dafny

dimod builds quadratic models from symbolic expressions. A variable is a
label with a kind: binary, integer or spin. A quadratic model (QM) is the
polynomial

    offset + sum of linear[u]*u + sum of quadratic[{u, v}]*u*v

Writing `x + i`, `(i - 1)*(j - 1)`, `2*x` or `sum([x, i, s, 1])` over variables
and numbers produces a QM. `quicksum(terms)` builds the same sum by merging
every term into one fresh table of coefficients.

The project has four modules:

- `Variables` (`variables.dfy`) defines variables, a lexicographic order on
  labels, and the canonical key of an unordered pair of distinct labels. With
  that key, `(i, j)` and `(j, i)` name the same quadratic entry.
- `QuadraticModels` (`quadratic.dfy`) holds the QM datatype and the operations:
  - promotion of a variable, a number or a model to a QM;
  - the merge primitive `Combine`, with `Add`, `Sub`, `Scale` and `Mul`;
  - the laws these operations obey;
  - the sum of a sequence of operands, defined as the left fold of `+` from 0,
    with the proof that its value does not depend on the order of the operands.
- `Quicksum` (`quicksum.dfy`) holds the mutable `TermTable` class and the
  `QuickSum` method. The method allocates a fresh table, merges each promoted
  term into it in a loop, and is proved to compute the same model as the sum.
- `SymbolicTests` (`symbolic_tests.dfy`) states what each test asserts, over
  the fixed variables x (binary), i and j (integer) and s (spin), and proves
  it from the model.

Modelling decisions:

- Coefficients are unbounded integers.
- A key that enters a coefficient map is never removed. So `q - q` keeps every
  key of `q`, each with the coefficient 0.
- A product of degree three or more is the error `DegreeExceeded`. This
  happens when one factor has a quadratic term and the other is not a constant.
- A product that would square a label is the error `SelfProduct`. This happens
  when both factors have a linear term on the same label.

## Model

| member | source | states |
|---|---|---|
| Variables.MakeEdge | tests/test_symbolic.py:41 | the key of a pair of distinct labels is canonical (smaller label first) and consists of exactly those two labels |
| Variables.MakeEdgeSymmetric | tests/test_symbolic.py:41 | `(u, v)` and `(v, u)` give the same quadratic key |
| Variables.MakeEdgeInjective | tests/test_symbolic.py:41 | two label pairs share a key iff they are the same unordered pair |
| Variables.MakeEdgeOfCanonical | tests/test_symbolic.py:41 | every canonical pair is the key of its own two labels |
| QuadraticModels.Promote | tests/test_symbolic.py:27-28 | a number becomes a constant model, a variable becomes the single linear term 1*name, a model stays itself; promotion keeps well-formedness |
| QuadraticModels.Combine | tests/test_symbolic.py:28 | merging `src` times `scale` into `dst`: offsets add, key sets are the union, every coefficient is `dst + scale*src`, canonical keys stay canonical |
| QuadraticModels.Add | tests/test_symbolic.py:28 | `a + b` adds offsets and every linear and quadratic coefficient, over the union of the keys |
| QuadraticModels.Sub | tests/test_symbolic.py:58 | `a - b` subtracts offsets and every coefficient, over the union of the keys |
| QuadraticModels.Scale | tests/test_symbolic.py:70 | `c*q` multiplies the offset and every coefficient by `c` and keeps every key |
| QuadraticModels.AddCommutative | tests/test_symbolic.py:27-32 | `a + b == b + a` |
| QuadraticModels.AddAssociative | tests/test_symbolic.py:27-32 | `(a + b) + c == a + (b + c)` |
| QuadraticModels.AddZero | tests/test_symbolic.py:28 | 0 is neutral on either side of `+`, so a sum started from 0 loses nothing |
| QuadraticModels.Neg | tests/test_symbolic.py:57-58 | `-q`, which is `(-1)*q`, negates the offset and every coefficient and keeps every key |
| QuadraticModels.SubIsAddNeg | tests/test_symbolic.py:57-58 | `a - b == a + (-1)*b`, written `Add(a, Neg(b))` |
| QuadraticModels.SubSelfKeepsKeys | tests/test_symbolic.py:57-58 | `q - q` keeps every key of `q`, each with coefficient 0 |
| QuadraticModels.ScaleOne | tests/test_symbolic.py:70 | `1*q == q` |
| QuadraticModels.ScaleScale | tests/test_symbolic.py:70 | `c*(d*q) == (c*d)*q` |
| QuadraticModels.ScaleDistributes | tests/test_symbolic.py:70 | `c*(a + b) == c*a + c*b` |
| QuadraticModels.MergeMapsCommutative | tests/test_symbolic.py:27-32 | merging coefficient maps does not depend on the order of the operands |
| QuadraticModels.MergeMapsAssociative | tests/test_symbolic.py:27-32 | merging coefficient maps is associative |
| QuadraticModels.CrossMapLookup | tests/test_symbolic.py:38-41 | the product of two linear parts gives each canonical pair `{u, v}` the coefficient `a[u]*b[v] + a[v]*b[u]` |
| QuadraticModels.CrossMapSymmetric | tests/test_symbolic.py:49-50 | the product of two linear parts does not depend on their order |
| QuadraticModels.CrossMapDistributes | tests/test_symbolic.py:38 | the product of linear parts is additive in its second argument |
| QuadraticModels.CrossMapSingletons | tests/test_symbolic.py:38-41 | `(x*u)*(y*v)` with u before v is the single quadratic entry `x*y` on `(u, v)` |
| QuadraticModels.Mul | tests/test_symbolic.py:49-50 | `a*b` is `DegreeExceeded` exactly when it would hold a cubic term, `SelfProduct` exactly when it would square a label, and otherwise a model whose offset is the product of the offsets |
| QuadraticModels.MulKeys | tests/test_symbolic.py:38-41 | the keys of `a*b`: both operands' linear keys; both operands' quadratic keys plus a pair for every two distinct labels across their linear parts; well-formedness is kept |
| QuadraticModels.MulLinear | tests/test_symbolic.py:38-40 | the linear coefficient of u in `a*b` is `b.offset*a[u] + a.offset*b[u]` |
| QuadraticModels.MulQuadratic | tests/test_symbolic.py:38-41 | the coefficient of u*v in `a*b`, for u and v in either order, is `b.offset*a[uv] + a.offset*b[uv] + a[u]*b[v] + a[v]*b[u]` |
| QuadraticModels.MulCommutative | tests/test_symbolic.py:49-50 | `a*b == b*a`, errors included |
| QuadraticModels.MulByConstantLeft | tests/test_symbolic.py:70 | a number times a model is always defined and equals `Scale` |
| QuadraticModels.MulByConstantRight | tests/test_symbolic.py:49-50 | a model times a number is always defined and equals `Scale` |
| QuadraticModels.ExceedsDegreeOfAdd | tests/test_symbolic.py:38 | `a*(b + c)` exceeds degree 2 iff `a*b` or `a*c` does |
| QuadraticModels.SharesLabelOfAdd | tests/test_symbolic.py:38 | `a*(b + c)` squares a label iff `a*b` or `a*c` does |
| QuadraticModels.ProductOfAdd | tests/test_symbolic.py:38 | the polynomial product distributes over `+` |
| QuadraticModels.MulDistributesOverAdd | tests/test_symbolic.py:38 | `a*(b + c)` is defined iff both `a*b` and `a*c` are, and then equals `a*b + a*c` |
| QuadraticModels.FoldPermutation | tests/test_symbolic.py:27-28 | a left fold whose last two steps commute gives the same result for any permutation of its input |
| QuadraticModels.AddTermRightCommutative | tests/test_symbolic.py:27-28 | adding two operands to a running sum gives the same result in either order |
| QuadraticModels.Sum | tests/test_symbolic.py:28 | Python's `sum`: the left fold of `+` from `Constant(0)` over the promoted operands; the sum of no operands is `Constant(0)` |
| QuadraticModels.SumSnoc | tests/test_symbolic.py:28 | appending an operand adds its promotion to the sum |
| QuadraticModels.SumWellFormed | tests/test_symbolic.py:28 | a sum of well-formed operands is well formed |
| QuadraticModels.SumPermutation | tests/test_symbolic.py:27-28 | any two permutations of the same operands have the same sum |
| Quicksum.MergeInto | tests/test_symbolic.py:71 | merging a coefficient map key by key yields `MergeMaps(dst, src, scale)` |
| Quicksum.TermTable.constructor | tests/test_symbolic.py:63 | a new table holds the constant 0 |
| Quicksum.TermTable.Merge | tests/test_symbolic.py:71 | merging in place leaves the table holding `Combine(old table, src, scale)` |
| Quicksum.QuickSum | tests/test_symbolic.py:62-82 | the result is a freshly allocated table holding the sum of the operands |
| SymbolicTests.SumOfLinearFixtures | tests/test_symbolic.py:27-32 | `0 + c*x + i + s + 1` is offset 1, linear `{x: c, i: 1, s: 1}`, no quadratic terms |
| SymbolicTests.AddPermutations | tests/test_symbolic.py:22-32 | every permutation of `[x, i, s, 1]` sums to linear `{x: 1, i: 1, s: 1}`, offset 1, no quadratic terms |
| SymbolicTests.VariableMinusOne | tests/test_symbolic.py:38 | `v - 1` is offset -1 with the single linear term 1*v |
| SymbolicTests.ProductOfShiftedFixtures | tests/test_symbolic.py:38-42 | `(i - 1)*(j - 1)`, with both factors evaluated, is `i*j - i - j + 1` |
| SymbolicTests.Expressions | tests/test_symbolic.py:34-42 | `(i - 1)*(j - 1)` is linear `{i: -1, j: -1}`, quadratic `{(i, j): 1}`, offset 1 |
| SymbolicTests.ExpressionsPairOrder | tests/test_symbolic.py:34-41 | the product `(i - 1)*(j - 1)` is defined, and its ij coefficient reads as 1 under `(i, j)` and under `(j, i)` |
| SymbolicTests.MulPermutations | tests/test_symbolic.py:44-50 | for every ordered pair of distinct operands from `x, i, s, 1`, the product is defined |
| SymbolicTests.SubPermutations | tests/test_symbolic.py:52-58 | for every such pair, `t0 - t1` equals `t0 + (-1)*t1`, and that product is defined |
| SymbolicTests.QuickSumEmpty | tests/test_symbolic.py:62-63 | `quicksum([])` is the constant 0 |
| SymbolicTests.TwoXValue | tests/test_symbolic.py:70 | `2*x` is defined and is the single linear term 2*x |
| SymbolicTests.QuickSumPromotion | tests/test_symbolic.py:65-75 | `quicksum` of any permutation of `[2*x, i, s, 1]`, with `2*x` the evaluated product of 2 and x, is linear `{x: 2, i: 1, s: 1}`, offset 1, no quadratic terms |
| SymbolicTests.QuickSumCopy | tests/test_symbolic.py:77-82 | `quicksum([x])` is a new table, not one of its operands, and holds the same content as x |

## Left out

- Variable kinds are not stored in a QM. So a label used under two kinds is not reported as a kind conflict.
- Mul: the square of a label (x*x) is the error `SelfProduct`. It is not folded into the linear term for binary or spin variables, and no self-pair is kept for integer variables. No test exercises this case.
- Mul: if a product both exceeds degree 2 and squares a label, it reports `DegreeExceeded`. The source does not fix which error comes first.
- Coefficients are unbounded integers, not floating-point numbers. Every coefficient in the tests is an integer.
- Zero coefficients are never pruned. The tests cannot tell whether the source prunes them.
- ExceedsDegree and SharesLabel look at keys, not at coefficient values. So a cancelled term still counts for both errors: `(x - x)*x` is `SelfProduct` and `(x*i - x*i)*s` is `DegreeExceeded`, although `x - x` and `x*i - x*i` are the zero polynomial.
- QuickSumCopy: operands and models are immutable values, so quicksum handing back its own input object cannot happen in the model. `fresh(newx)` stands in for the identity check against x, and equality of content for the equality check.
- Integer-variable bounds, variable ordering and iteration order, solvers and file formats are not modelled. None of them appears in the expressions tested.
- The dimod classes that the tests import are not part of this model. The model follows what the tests assert of them.
- Python's built-in `sum` is modelled as the function `Sum`, a left fold from 0. It is not modelled as a loop, because its loop is outside dimod.
- Comparing a model with the bare number 0 is modelled as comparing it with `Constant(0)`.
