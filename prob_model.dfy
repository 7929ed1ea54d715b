// Variables, factors and the two reference meanings of "sum out the
// elimination order from the product of the factors":
//  * Rc0Sum follows rc0 exactly: branch on the last variable of the order,
//    multiply the factor values at the leaves;
//  * FreeSum fixes no order: it sums over every completion of a SET of free
//    variables for a SET of factors, which is what a cache entry of rc stands for.
// The main theorem, Rc0SumIsFreeSum, says the two agree for every order, so the
// result of rc0 does not depend on the elimination order.
module ProbModel {
  import opened Utilities
  import opened SetProducts

  datatype Value = BoolValue(b: bool) | StrValue(s: string)

  /** A random variable with its list of values. */
  datatype Variable = Variable(name: string, domain: seq<Value>)

  /** A partial assignment of values to variables. */
  type Context = map<Variable, Value>

  /** A factor: its scope and its table from the scope's values to a weight.
      `id` tells apart factors that happen to share a scope and a table,
      as distinct objects do in the source. */
  datatype Factor = Factor(id: nat, scope: seq<Variable>, table: map<seq<Value>, real>)

  datatype GraphicalModel = GraphicalModel(variables: seq<Variable>, factors: seq<Factor>)

  /** Every variable some factor of `fs` mentions. */
  function Vars(fs: set<Factor>): set<Variable>
  {
    set f, v | f in fs && v in f.scope :: v
  }

  /** The context assigns every variable of the factor's scope. */
  predicate Assigns(ctx: Context, f: Factor)
  {
    forall v :: v in f.scope ==> v in ctx
  }

  function ScopeValues(f: Factor, ctx: Context): (key: seq<Value>)
    requires Assigns(ctx, f)
    ensures |key| == |f.scope|
    ensures forall i :: 0 <= i < |f.scope| ==> key[i] == ctx[f.scope[i]]
  {
    seq(|f.scope|, i requires 0 <= i < |f.scope| => ctx[f.scope[i]])
  }

  /** Factor.get_value: the table entry for the context's values of the scope;
      an entry the table does not list has weight 0. */
  function GetValue(f: Factor, ctx: Context): real
    requires Assigns(ctx, f)
  {
    var key := ScopeValues(f, ctx);
    if key in f.table then f.table[key] else 0.0
  }

  /** GetValue made total, for the order-free reference sum. */
  function Weight(f: Factor, ctx: Context): real
  {
    if Assigns(ctx, f) then GetValue(f, ctx) else 0.0
  }

  /** Two contexts agree on the variables of `f`'s scope. */
  predicate AgreeOnScope(c1: Context, c2: Context, f: Factor)
  {
    forall v :: v in f.scope ==> (v in c1 <==> v in c2) && (v in c1 ==> c1[v] == c2[v])
  }

  lemma WeightAgree(f: Factor, c1: Context, c2: Context)
    requires AgreeOnScope(c1, c2, f)
    ensures Weight(f, c1) == Weight(f, c2)
  {
    if Assigns(c1, f) {
      assert ScopeValues(f, c1) == ScopeValues(f, c2);
    }
  }

  /** prod: the product of a list, 1 for the empty list, multiplied left to right. */
  function Product(xs: seq<real>): real
  {
    if xs == [] then 1.0 else Product(xs[..|xs| - 1]) * xs[|xs| - 1]
  }

  /** Python's sum of a list, added left to right from 0. */
  function Sum(xs: seq<real>): real
  {
    if xs == [] then 0.0 else Sum(xs[..|xs| - 1]) + xs[|xs| - 1]
  }

  /** A product is zero exactly when one of its factors is. */
  lemma {:induction false} ProductZero(xs: seq<real>)
    ensures Product(xs) == 0.0 <==> exists i :: 0 <= i < |xs| && xs[i] == 0.0
  {
    if xs != [] {
      var init := xs[..|xs| - 1];
      ProductZero(init);
      assert forall i :: 0 <= i < |init| ==> init[i] == xs[i];
      if Product(xs) == 0.0 {
        if Product(init) == 0.0 {
          var i :| 0 <= i < |init| && init[i] == 0.0;
          assert xs[i] == 0.0;
        } else {
          assert xs[|xs| - 1] == 0.0;
        }
      }
    }
  }

  /** The values of the factors at the context, in list order. */
  function FactorValues(fs: seq<Factor>, ctx: Context): (vals: seq<real>)
    requires forall f :: f in fs ==> Assigns(ctx, f)
    ensures |vals| == |fs|
    ensures forall i :: 0 <= i < |fs| ==> vals[i] == GetValue(fs[i], ctx)
  {
    seq(|fs|, i requires 0 <= i < |fs| => GetValue(fs[i], ctx))
  }

  /** Every variable a factor mentions is in the context or still to be eliminated. */
  predicate Covers(ctx: Context, fs: seq<Factor>, order: seq<Variable>)
  {
    forall f, v :: f in fs && v in f.scope ==> v in ctx || v in order
  }

  /** What rc0 computes: with an empty order, the product of all factor values
      at the context; otherwise the sum, over the domain of the LAST variable of
      the order, of the same computation with that variable assigned
      (dict_union({var: val}, context)) and dropped from the order. */
  function Rc0Sum(ctx: Context, fs: seq<Factor>, order: seq<Variable>): real
    requires Covers(ctx, fs, order)
    decreases |order|, 1, 0
  {
    if order == [] then Product(FactorValues(fs, ctx))
    else BranchSum(ctx, fs, order, order[|order| - 1].domain)
  }

  /** The running total of rc0's loop after the values `vals`. */
  function BranchSum(ctx: Context, fs: seq<Factor>, order: seq<Variable>, vals: seq<Value>): real
    requires order != [] && Covers(ctx, fs, order)
    decreases |order|, 0, |vals|
  {
    if vals == [] then 0.0
    else
      var x := order[|order| - 1];
      var rest := order[..|order| - 1];
      assert forall v :: v in order ==> v == x || v in rest;
      BranchSum(ctx, fs, order, vals[..|vals| - 1])
        + Rc0Sum(DictUnion(map[x := vals[|vals| - 1]], ctx), fs, rest)
  }

  // ---------------------------------------------------------------------------
  // Sums over a list of values of a real-valued function, and how they commute.

  function SumOver<T>(vals: seq<T>, g: T -> real): real
  {
    if vals == [] then 0.0 else SumOver(vals[..|vals| - 1], g) + g(vals[|vals| - 1])
  }

  lemma {:induction false} SumOverCongruence<T>(vals: seq<T>, g: T -> real, h: T -> real)
    requires forall v :: v in vals ==> g(v) == h(v)
    ensures SumOver(vals, g) == SumOver(vals, h)
  {
    if vals != [] {
      SumOverCongruence(vals[..|vals| - 1], g, h);
    }
  }

  lemma {:induction false} SumOverAdd<T>(vals: seq<T>, f: T -> real, g: T -> real, h: T -> real)
    requires forall v :: v in vals ==> h(v) == f(v) + g(v)
    ensures SumOver(vals, h) == SumOver(vals, f) + SumOver(vals, g)
  {
    if vals != [] {
      SumOverAdd(vals[..|vals| - 1], f, g, h);
    }
  }

  lemma {:induction false} SumOverScale<T>(vals: seq<T>, f: T -> real, g: T -> real, c: real)
    requires forall v :: v in vals ==> g(v) == c * f(v)
    ensures SumOver(vals, g) == c * SumOver(vals, f)
  {
    if vals != [] {
      SumOverScale(vals[..|vals| - 1], f, g, c);
    }
  }

  function Fix1<A, B>(g: (A, B) -> real, a: A): B -> real
  {
    b => g(a, b)
  }

  function Fix2<A, B>(g: (A, B) -> real, b: B): A -> real
  {
    a => g(a, b)
  }

  function Rows<A, B>(g: (A, B) -> real, bs: seq<B>): A -> real
  {
    a => SumOver(bs, Fix1(g, a))
  }

  function Cols<A, B>(g: (A, B) -> real, xs: seq<A>): B -> real
  {
    b => SumOver(xs, Fix2(g, b))
  }

  /** A double sum over two lists may be taken in either order. */
  lemma {:induction false} SumOverSwap<A, B>(xs: seq<A>, bs: seq<B>, g: (A, B) -> real)
    ensures SumOver(xs, Rows(g, bs)) == SumOver(bs, Cols(g, xs))
  {
    if xs == [] {
      SumOverScale(bs, Cols(g, xs), Cols(g, xs), 0.0);
    } else {
      var init, a := xs[..|xs| - 1], xs[|xs| - 1];
      SumOverSwap(init, bs, g);
      forall b | b in bs ensures Cols(g, xs)(b) == Cols(g, init)(b) + Fix1(g, a)(b) {
      }
      SumOverAdd(bs, Cols(g, init), Fix1(g, a), Cols(g, xs));
    }
  }

  // ---------------------------------------------------------------------------
  // The order-free reference sum.

  /** The weight of each factor at a context. */
  function WeightAt(ctx: Context): Factor -> real
  {
    f => Weight(f, ctx)
  }

  // Two rewriting steps under a real product, stated on plain real parameters:
  // keeping products out of the proofs that use them keeps those proofs cheap.

  /** x = yz, read with equal terms x', y', z' in place of x, y, z. */
  lemma MulCongruence(x: real, y: real, z: real, x': real, y': real, z': real)
    requires x == y * z && x == x' && y == y' && z == z'
    ensures x' == y' * z'
  {
  }

  /** From x = ab, y = cd, a = c and b = d: x = y. */
  lemma MulEq(x: real, a: real, b: real, y: real, c: real, d: real)
    requires x == a * b && y == c * d && a == c && b == d
    ensures x == y
  {
  }

  /** Product of the weights of a set of factors. */
  ghost function SetProduct(ctx: Context, fs: set<Factor>): real
  {
    SetProd(fs, WeightAt(ctx))
  }

  /** Sum, over every completion of the variables `vs`, of the product of `fs`. */
  ghost function FreeSum(ctx: Context, fs: set<Factor>, vs: set<Variable>): real
    decreases |vs|, 1
  {
    if vs == {} then SetProduct(ctx, fs)
    else var x := Pick(vs); BranchTotal(ctx, fs, vs, x, x.domain)
  }

  /** FreeSum with `x` summed out first, over the values `vals` of `x`. */
  ghost function BranchTotal(ctx: Context, fs: set<Factor>, vs: set<Variable>, x: Variable, vals: seq<Value>): real
    requires x in vs
    decreases |vs|, 0, |vals|
  {
    if vals == [] then 0.0
    else BranchTotal(ctx, fs, vs, x, vals[..|vals| - 1]) + FreeSum(ctx[x := vals[|vals| - 1]], fs, vs - {x})
  }

  /** The summand of FreeSum when `x` is summed out first. */
  ghost function Branch(ctx: Context, fs: set<Factor>, vs: set<Variable>, x: Variable): Value -> real
    requires x in vs
  {
    v => FreeSum(ctx[x := v], fs, vs - {x})
  }

  lemma {:induction false} BranchTotalIsSumOver(ctx: Context, fs: set<Factor>, vs: set<Variable>,
                                               x: Variable, vals: seq<Value>)
    requires x in vs
    ensures BranchTotal(ctx, fs, vs, x, vals) == SumOver(vals, Branch(ctx, fs, vs, x))
  {
    if vals != [] {
      BranchTotalIsSumOver(ctx, fs, vs, x, vals[..|vals| - 1]);
    }
  }

  lemma SetProductAny(ctx: Context, fs: set<Factor>, f: Factor)
    requires f in fs
    ensures SetProduct(ctx, fs) == Weight(f, ctx) * SetProduct(ctx, fs - {f})
  {
    var w := WeightAt(ctx);
    SetProdAny(fs, w, f);
    MulCongruence(SetProd(fs, w), w(f), SetProd(fs - {f}, w),
                  SetProduct(ctx, fs), Weight(f, ctx), SetProduct(ctx, fs - {f}));
  }

  lemma SetProductAgree(c1: Context, c2: Context, fs: set<Factor>)
    requires forall f :: f in fs ==> AgreeOnScope(c1, c2, f)
    ensures SetProduct(c1, fs) == SetProduct(c2, fs)
  {
    forall f | f in fs ensures WeightAt(c1)(f) == WeightAt(c2)(f) {
      WeightAgree(f, c1, c2);
    }
    FoldCongruence(fs, WeightAt(c1), WeightAt(c2), Times(), 1.0);
  }

  lemma SetProductSplit(ctx: Context, fs: set<Factor>, es: set<Factor>)
    requires es <= fs
    ensures SetProduct(ctx, fs) == SetProduct(ctx, es) * SetProduct(ctx, fs - es)
  {
    SetProdSplit(fs, es, WeightAt(ctx));
  }

  /** The sum may branch on ANY free variable first: the choice FreeSum makes
      does not matter. */
  lemma {:induction false} FreeSumAny(ctx: Context, fs: set<Factor>, vs: set<Variable>, x: Variable)
    requires x in vs
    ensures FreeSum(ctx, fs, vs) == SumOver(x.domain, Branch(ctx, fs, vs, x))
    decreases |vs|
  {
    var y := Pick(vs);
    BranchTotalIsSumOver(ctx, fs, vs, y, y.domain);
    if y != x {
      var g := (a: Value, b: Value) => FreeSum(ctx[x := a][y := b], fs, vs - {x} - {y});
      forall b | b in y.domain
        ensures Branch(ctx, fs, vs, y)(b) == Cols(g, x.domain)(b)
      {
        FreeSumAny(ctx[y := b], fs, vs - {y}, x);
        forall a | a in x.domain
          ensures Branch(ctx[y := b], fs, vs - {y}, x)(a) == Fix2(g, b)(a)
        {
          assert ctx[y := b][x := a] == ctx[x := a][y := b];
          assert vs - {y} - {x} == vs - {x} - {y};
        }
        SumOverCongruence(x.domain, Branch(ctx[y := b], fs, vs - {y}, x), Fix2(g, b));
      }
      SumOverCongruence(y.domain, Branch(ctx, fs, vs, y), Cols(g, x.domain));
      forall a | a in x.domain
        ensures Branch(ctx, fs, vs, x)(a) == Rows(g, y.domain)(a)
      {
        FreeSumAny(ctx[x := a], fs, vs - {x}, y);
        SumOverCongruence(y.domain, Branch(ctx[x := a], fs, vs - {x}, y), Fix1(g, a));
      }
      SumOverCongruence(x.domain, Branch(ctx, fs, vs, x), Rows(g, y.domain));
      SumOverSwap(x.domain, y.domain, g);
    }
  }

  /** Contexts that agree on every bound variable of every factor give the same sum. */
  predicate AgreeOutside(c1: Context, c2: Context, fs: set<Factor>, vs: set<Variable>)
  {
    forall f, v :: f in fs && v in f.scope && v !in vs ==>
      (v in c1 <==> v in c2) && (v in c1 ==> c1[v] == c2[v])
  }

  lemma {:induction false} FreeSumAgree(c1: Context, c2: Context, fs: set<Factor>, vs: set<Variable>)
    requires AgreeOutside(c1, c2, fs, vs)
    ensures FreeSum(c1, fs, vs) == FreeSum(c2, fs, vs)
    decreases |vs|
  {
    if vs == {} {
      SetProductAgree(c1, c2, fs);
    } else {
      var x :| x in vs;
      FreeSumAny(c1, fs, vs, x);
      FreeSumAny(c2, fs, vs, x);
      forall a | a in x.domain ensures Branch(c1, fs, vs, x)(a) == Branch(c2, fs, vs, x)(a) {
        FreeSumAgree(c1[x := a], c2[x := a], fs, vs - {x});
      }
      SumOverCongruence(x.domain, Branch(c1, fs, vs, x), Branch(c2, fs, vs, x));
    }
  }

  /** Factors whose scope is wholly assigned (and not summed over) factor out of the sum. */
  lemma {:induction false} FreeSumFactorOut(ctx: Context, fs: set<Factor>, es: set<Factor>, vs: set<Variable>)
    requires es <= fs
    requires forall f, v :: f in es && v in f.scope ==> v in ctx && v !in vs
    ensures FreeSum(ctx, fs, vs) == SetProduct(ctx, es) * FreeSum(ctx, fs - es, vs)
    decreases |vs|, 2
  {
    if vs == {} {
      SetProductSplit(ctx, fs, es);
      MulCongruence(SetProduct(ctx, fs), SetProduct(ctx, es), SetProduct(ctx, fs - es),
                    FreeSum(ctx, fs, vs), SetProduct(ctx, es), FreeSum(ctx, fs - es, vs));
    } else {
      var x :| x in vs;
      var p := SetProduct(ctx, es);
      FreeSumFactorOutSum(ctx, fs, es, vs, x);
      FreeSumAny(ctx, fs, vs, x);
      FreeSumAny(ctx, fs - es, vs, x);
      MulCongruence(SumOver(x.domain, Branch(ctx, fs, vs, x)), p, SumOver(x.domain, Branch(ctx, fs - es, vs, x)),
                    FreeSum(ctx, fs, vs), p, FreeSum(ctx, fs - es, vs));
    }
  }

  /** FreeSumFactorOut for the sum over the variable summed out first. */
  lemma {:induction false} FreeSumFactorOutSum(ctx: Context, fs: set<Factor>, es: set<Factor>,
                                              vs: set<Variable>, x: Variable)
    requires es <= fs && x in vs
    requires forall f, v :: f in es && v in f.scope ==> v in ctx && v !in vs
    ensures SumOver(x.domain, Branch(ctx, fs, vs, x))
            == SetProduct(ctx, es) * SumOver(x.domain, Branch(ctx, fs - es, vs, x))
    decreases |vs|, 1
  {
    forall a | a in x.domain
      ensures Branch(ctx, fs, vs, x)(a) == SetProduct(ctx, es) * Branch(ctx, fs - es, vs, x)(a)
    {
      FreeSumFactorOutBranch(ctx, fs, es, vs, x, a);
    }
    SumOverScale(x.domain, Branch(ctx, fs - es, vs, x), Branch(ctx, fs, vs, x), SetProduct(ctx, es));
  }

  /** Assigning a summed variable leaves factors that do not mention it untouched. */
  lemma AssignedAfterBranch(ctx: Context, es: set<Factor>, vs: set<Variable>, x: Variable, a: Value)
    requires x in vs
    requires forall f, v :: f in es && v in f.scope ==> v in ctx && v !in vs
    ensures forall f, v :: f in es && v in f.scope ==> v in ctx[x := a] && v !in vs - {x}
    ensures forall f :: f in es ==> AgreeOnScope(ctx[x := a], ctx, f)
  {
    forall f | f in es ensures AgreeOnScope(ctx[x := a], ctx, f) {
      assert x !in f.scope;
    }
  }

  /** FreeSumFactorOut for one value of the variable summed out first. */
  lemma {:induction false} FreeSumFactorOutBranch(ctx: Context, fs: set<Factor>, es: set<Factor>,
                                                 vs: set<Variable>, x: Variable, a: Value)
    requires es <= fs && x in vs
    requires forall f, v :: f in es && v in f.scope ==> v in ctx && v !in vs
    ensures Branch(ctx, fs, vs, x)(a) == SetProduct(ctx, es) * Branch(ctx, fs - es, vs, x)(a)
    decreases |vs|, 0
  {
    var c := ctx[x := a];
    AssignedAfterBranch(ctx, es, vs, x, a);
    FreeSumFactorOut(c, fs, es, vs - {x});
    SetProductAgree(c, ctx, es);
    MulCongruence(FreeSum(c, fs, vs - {x}), SetProduct(c, es), FreeSum(c, fs - es, vs - {x}),
                  Branch(ctx, fs, vs, x)(a), SetProduct(ctx, es), Branch(ctx, fs - es, vs, x)(a));
  }

  /** The product of the factor values is the product of the weights, in list order. */
  lemma {:induction false} ProductIsSeqProd(ctx: Context, fs: seq<Factor>)
    requires forall f :: f in fs ==> Assigns(ctx, f)
    ensures Product(FactorValues(fs, ctx)) == SeqProd(fs, WeightAt(ctx))
  {
    if fs != [] {
      var init, last := fs[..|fs| - 1], fs[|fs| - 1];
      FactorValuesSnoc(fs, ctx);
      ProductIsSeqProd(ctx, init);
      MulEq(Product(FactorValues(fs, ctx)), Product(FactorValues(init, ctx)), Weight(last, ctx),
            SeqProd(fs, WeightAt(ctx)), SeqProd(init, WeightAt(ctx)), WeightAt(ctx)(last));
    }
  }

  lemma FactorValuesSnoc(fs: seq<Factor>, ctx: Context)
    requires fs != [] && forall f :: f in fs ==> Assigns(ctx, f)
    ensures forall f :: f in fs[..|fs| - 1] ==> Assigns(ctx, f)
    ensures Product(FactorValues(fs, ctx))
            == Product(FactorValues(fs[..|fs| - 1], ctx)) * Weight(fs[|fs| - 1], ctx)
  {
    var vals := FactorValues(fs, ctx);
    assert vals[..|fs| - 1] == FactorValues(fs[..|fs| - 1], ctx);
    MulCongruence(Product(vals), Product(vals[..|fs| - 1]), vals[|fs| - 1],
                  Product(vals), Product(FactorValues(fs[..|fs| - 1], ctx)), Weight(fs[|fs| - 1], ctx));
  }

  /** The product of a list of distinct factors is the product of their set. */
  lemma ProductIsSetProduct(ctx: Context, fs: seq<Factor>)
    requires Distinct(fs)
    requires forall f :: f in fs ==> Assigns(ctx, f)
    ensures Product(FactorValues(fs, ctx)) == SetProduct(ctx, Elements(fs))
  {
    ProductIsSeqProd(ctx, fs);
    SeqProdIsSetProd(fs, WeightAt(ctx));
  }

  /** The running total of rc0's loop is a SumOver of the recursive results. */
  lemma {:induction false} BranchSumIsSumOver(ctx: Context, fs: seq<Factor>, order: seq<Variable>,
                                             vals: seq<Value>, g: Value -> real)
    requires order != [] && Covers(ctx, fs, order)
    requires forall a :: a in vals ==>
      (Covers(DictUnion(map[order[|order| - 1] := a], ctx), fs, order[..|order| - 1])
       && Rc0Sum(DictUnion(map[order[|order| - 1] := a], ctx), fs, order[..|order| - 1]) == g(a))
    ensures BranchSum(ctx, fs, order, vals) == SumOver(vals, g)
  {
    if vals != [] {
      BranchSumIsSumOver(ctx, fs, order, vals[..|vals| - 1], g);
    }
  }

  /** rc0's result is the order-free sum over the variables of the order:
      for distinct factors and an order of distinct variables none of which
      the context assigns. */
  lemma {:induction false} Rc0SumIsFreeSum(ctx: Context, fs: seq<Factor>, order: seq<Variable>)
    requires Distinct(fs) && Distinct(order)
    requires forall v :: v in order ==> v !in ctx
    requires Covers(ctx, fs, order)
    ensures Rc0Sum(ctx, fs, order) == FreeSum(ctx, Elements(fs), Elements(order))
    decreases |order|
  {
    if order == [] {
      ProductIsSetProduct(ctx, fs);
    } else {
      var x, rest := order[|order| - 1], order[..|order| - 1];
      var vs := Elements(order);
      assert Elements(rest) == vs - {x} by {
        assert order == rest + [x];
        assert forall i :: 0 <= i < |rest| ==> rest[i] != x;
      }
      forall a | a in x.domain
        ensures Covers(DictUnion(map[x := a], ctx), fs, rest)
        ensures Rc0Sum(DictUnion(map[x := a], ctx), fs, rest) == Branch(ctx, Elements(fs), vs, x)(a)
      {
        assert DictUnion(map[x := a], ctx) == ctx[x := a];
        assert forall v :: v in order ==> v == x || v in rest;
        Rc0SumIsFreeSum(ctx[x := a], fs, rest);
      }
      BranchSumIsSumOver(ctx, fs, order, x.domain, Branch(ctx, Elements(fs), vs, x));
      FreeSumAny(ctx, Elements(fs), vs, x);
    }
  }

  /** The elimination order changes nothing but the work done. */
  lemma Rc0SumOrderIndependent(ctx: Context, fs: seq<Factor>, o1: seq<Variable>, o2: seq<Variable>)
    requires Distinct(fs) && Distinct(o1) && Distinct(o2)
    requires Elements(o1) == Elements(o2)
    requires forall v :: v in o1 ==> v !in ctx
    requires Covers(ctx, fs, o1)
    ensures Covers(ctx, fs, o2)
    ensures Rc0Sum(ctx, fs, o1) == Rc0Sum(ctx, fs, o2)
  {
    assert forall v :: v in o1 <==> v in o2 by {
      forall v ensures v in o1 <==> v in o2 {
        assert v in o1 <==> v in Elements(o1);
        assert v in o2 <==> v in Elements(o2);
      }
    }
    Rc0SumIsFreeSum(ctx, fs, o1);
    Rc0SumIsFreeSum(ctx, fs, o2);
  }
}
