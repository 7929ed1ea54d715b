// Recursive conditioning (class RC): rc0, the plain enumeration, and rc,
// which adds the cache, forgetting unused context variables and evaluating
// fully assigned factors early.  Both are proved to compute the reference
// sum of ProbModel; query normalises rc's results into a posterior.
module ProbRC {
  import opened Utilities
  import opened SetProducts
  import opened ProbModel

  /** CacheElt: a context with the SET of the factors, so the order of the
      factor list and repeats in it do not matter. */
  datatype CacheKey = CacheKey(context: Context, factors: set<Factor>)

  function CacheElt(ctx: Context, fs: seq<Factor>): (k: CacheKey)
    ensures k.context == ctx
    ensures forall f :: f in k.factors <==> f in fs
  {
    CacheKey(ctx, Elements(fs))
  }

  /** Two keys are equal exactly when the contexts are equal and the factor
      lists have the same members. */
  lemma CacheEltEquality(c1: Context, fs1: seq<Factor>, c2: Context, fs2: seq<Factor>)
    ensures CacheElt(c1, fs1) == CacheElt(c2, fs2) <==> c1 == c2 && forall f :: f in fs1 <==> f in fs2
  {
    if c1 == c2 && forall f :: f in fs1 <==> f in fs2 {
      assert Elements(fs1) == Elements(fs2);
    }
  }

  /** The number a cache entry stands for: its factors summed over every
      variable they mention that the context does not assign. */
  ghost function Meaning(k: CacheKey): real
  {
    FreeSum(k.context, k.factors, Vars(k.factors) - k.context.Keys)
  }

  /** The (empty context, no factors) entry rc starts with has the value 1. */
  lemma InitialEntry()
    ensures Meaning(CacheElt(map[], [])) == 1.0
  {
    var k := CacheElt(map[], []);
    assert k.factors == {};
    assert Vars(k.factors) - k.context.Keys == {};
  }

  // ---------------------------------------------------------------------------
  // The steps of rc, each on values.

  /** The context variables that no factor mentions. */
  function ForgottenVars(ctx: Context, fs: seq<Factor>): (gone: set<Variable>)
    ensures forall v :: v in gone <==> v in ctx && forall f :: f in fs ==> v !in f.scope
  {
    set v | v in ctx && forall f :: f in fs ==> v !in f.scope
  }

  /** The context without the variables `gone`. */
  function Forget(ctx: Context, gone: set<Variable>): (c: Context)
    ensures c.Keys == ctx.Keys - gone
    ensures forall v :: v in c ==> c[v] == ctx[v]
  {
    map v | v in ctx && v !in gone :: ctx[v]
  }

  /** Forgetting keeps the meaning: the dropped variables occur in no factor,
      the context shrinks and the other variables are still to be summed. */
  lemma ForgetStep(ctx: Context, fs: seq<Factor>, order: seq<Variable>)
    requires Elements(order) == Vars(Elements(fs)) - ctx.Keys
    ensures var c := Forget(ctx, ForgottenVars(ctx, fs));
      && Elements(order) == Vars(Elements(fs)) - c.Keys
      && (ForgottenVars(ctx, fs) != {} ==> |c.Keys| < |ctx.Keys|)
      && FreeSum(c, Elements(fs), Elements(order)) == FreeSum(ctx, Elements(fs), Elements(order))
  {
    var gone := ForgottenVars(ctx, fs);
    var c := Forget(ctx, gone);
    var vs := Elements(order);
    forall v | v in Vars(Elements(fs)) ensures v !in gone {
      var f :| f in Elements(fs) && v in f.scope;
    }
    if gone != {} {
      var v :| v in gone;
      assert c.Keys < ctx.Keys by {
        assert v in ctx.Keys && v !in c.Keys;
      }
    }
    FreeSumAgree(c, ctx, Elements(fs), vs);
  }

  /** to_eval: the factors whose whole scope the context assigns, in list order. */
  function ToEval(ctx: Context, fs: seq<Factor>): (es: seq<Factor>)
    ensures forall f :: f in es <==> f in fs && Assigns(ctx, f)
    ensures Distinct(fs) ==> Distinct(es)
  {
    if fs == [] then []
    else
      var rest := ToEval(ctx, fs[..|fs| - 1]);
      var last := fs[|fs| - 1];
      assert forall f :: f in fs <==> f in fs[..|fs| - 1] || f == last;
      if Assigns(ctx, last) then rest + [last] else rest
  }

  /** The factors of `fs` that are not in `es`, in list order. */
  function Remaining(fs: seq<Factor>, es: seq<Factor>): (rest: seq<Factor>)
    ensures forall f :: f in rest <==> f in fs && f !in es
    ensures Distinct(fs) ==> Distinct(rest)
    ensures |rest| <= |fs|
    ensures (exists f :: f in fs && f in es) ==> |rest| < |fs|
  {
    if fs == [] then []
    else
      var init, last := fs[..|fs| - 1], fs[|fs| - 1];
      var r := Remaining(init, es);
      assert forall f :: f in fs <==> f in init || f == last;
      if last !in es then r + [last] else r
  }

  /** prod: multiplies the values left to right, starting from 1. */
  method Prod(en: seq<real>) returns (res: real)
    ensures res == Product(en)
    ensures res == 0.0 <==> exists i :: 0 <= i < |en| && en[i] == 0.0
  {
    res := 1.0;
    for i := 0 to |en|
      invariant res == Product(en[..i])
    {
      assert en[..i + 1][..i] == en[..i];
      res := res * en[i];
    }
    assert en[..|en|] == en;
    ProductZero(en);
  }

  /** What evaluation does to the sets: the evaluated factors and the rest
      make up the factors, and the variables to sum stay the same. */
  lemma EvalSets(ctx: Context, fs: seq<Factor>, es: seq<Factor>, rest: seq<Factor>, order: seq<Variable>)
    requires es == ToEval(ctx, fs) && rest == Remaining(fs, es)
    requires Elements(order) == Vars(Elements(fs)) - ctx.Keys
    ensures Elements(es) <= Elements(fs) && Elements(rest) == Elements(fs) - Elements(es)
    ensures forall f, v :: f in Elements(es) && v in f.scope ==> v in ctx && v !in Elements(order)
    ensures Elements(order) == Vars(Elements(rest)) - ctx.Keys
  {
    var efs, ees := Elements(fs), Elements(es);
    assert forall f :: f in ees ==> f in efs && Assigns(ctx, f);
    RemainingElements(fs, es);
    VarsAssignedRemoved(ctx, efs, ees);
  }

  lemma FactorOutRest(ctx: Context, fs: set<Factor>, es: set<Factor>, vs: set<Variable>,
                       val: real, t: real)
    requires es <= fs
    requires forall f, v :: f in es && v in f.scope ==> v in ctx && v !in vs
    requires val == SetProduct(ctx, es) && t == FreeSum(ctx, fs - es, vs)
    ensures FreeSum(ctx, fs, vs) == val * t
    ensures val == 0.0 ==> FreeSum(ctx, fs, vs) == 0.0
  {
    FreeSumFactorOut(ctx, fs, es, vs);
    ProductOfEquals(FreeSum(ctx, fs, vs), SetProduct(ctx, es), FreeSum(ctx, fs - es, vs), val, t);
  }

  /** From x = yz with y = a and z = b: x = ab, and x = 0 when a = 0. */
  lemma ProductOfEquals(x: real, y: real, z: real, a: real, b: real)
    requires x == y * z && y == a && z == b
    ensures x == a * b
    ensures a == 0.0 ==> x == 0.0
  {
  }

  /** prod(fac.get_value(context) for fac in to_eval): for factors without
      repeats, the product of their weights as a set. */
  method ProductOfValues(ctx: Context, es: seq<Factor>) returns (val: real)
    requires Distinct(es) && forall f :: f in es ==> Assigns(ctx, f)
    ensures val == SetProduct(ctx, Elements(es))
  {
    val := Prod(FactorValues(es, ctx));
    ProductIsSetProduct(ctx, es);
  }

  lemma RemainingElements(fs: seq<Factor>, es: seq<Factor>)
    ensures Elements(Remaining(fs, es)) == Elements(fs) - Elements(es)
  {
  }

  /** Removing factors the context fully assigns removes none of the
      variables still to be summed. */
  lemma VarsAssignedRemoved(ctx: Context, fs: set<Factor>, es: set<Factor>)
    requires es <= fs
    requires forall f :: f in es ==> Assigns(ctx, f)
    ensures Vars(fs - es) - ctx.Keys == Vars(fs) - ctx.Keys
  {
    forall v | v in Vars(fs) - ctx.Keys ensures v in Vars(fs - es) {
      var f :| f in fs && v in f.scope;
      assert f !in es;
    }
  }

  /** The assertion before the branching step holds: when the cache misses
      (so the key is not the initial one), nothing is forgotten and nothing
      is fully assigned, some variable is left to branch on. */
  lemma BranchOrderNonEmpty(ctx: Context, fs: seq<Factor>, order: seq<Variable>)
    requires Elements(order) == Vars(Elements(fs)) - ctx.Keys
    requires CacheElt(ctx, fs) != CacheElt(map[], [])
    requires ForgottenVars(ctx, fs) == {}
    requires ToEval(ctx, fs) == []
    ensures order != []
  {
    if fs != [] {
      var f := fs[0];
      assert !Assigns(ctx, f);
      var v :| v in f.scope && v !in ctx;
      assert v in Elements(order);
    }
  }

  // ---------------------------------------------------------------------------
  // Query: the default elimination order and normalisation.

  /** The default elimination order: the model's variables that are neither
      observed nor the query variable, in model order. */
  function DefaultOrder(vars: seq<Variable>, obs: Context, x: Variable): (order: seq<Variable>)
    ensures forall v :: v in order <==> v in vars && v !in obs && v != x
    ensures Distinct(vars) ==> Distinct(order)
    ensures Subsequence(order, vars)
  {
    if vars == [] then []
    else
      var init, last := vars[..|vars| - 1], vars[|vars| - 1];
      var rest := DefaultOrder(init, obs, x);
      assert forall v :: v in vars <==> v in init || v == last;
      if last !in obs && last != x then rest + [last] else rest
  }

  /** The answer when the query variable is observed. */
  function ObservedDist(dom: seq<Value>, observed: Value): (d: map<Value, real>)
    ensures d.Keys == Elements(dom)
    ensures forall v :: v in d ==> d[v] == if v == observed then 1.0 else 0.0
  {
    map v | v in Elements(dom) :: if v == observed then 1.0 else 0.0
  }

  /** The dictionary built from zip(keys, vals). */
  function ZipToMap(keys: seq<Value>, vals: seq<real>): (m: map<Value, real>)
    requires |keys| == |vals|
    ensures m.Keys == Elements(keys)
  {
    if keys == [] then map[]
    else
      var n := |keys| - 1;
      ZipToMap(keys[..n], vals[..n])[keys[n] := vals[n]]
  }

  /** On a key listed more than once the later pair wins, so a key's value
      is the one paired with its last occurrence. */
  lemma {:induction false} ZipToMapAt(keys: seq<Value>, vals: seq<real>, i: int)
    requires |keys| == |vals| && 0 <= i < |keys|
    requires forall j :: i < j < |keys| ==> keys[j] != keys[i]
    ensures ZipToMap(keys, vals)[keys[i]] == vals[i]
  {
    var n := |keys| - 1;
    if i < n {
      assert keys[..n][i] == keys[i];
      ZipToMapAt(keys[..n], vals[..n], i);
    }
  }

  datatype QueryError = ZeroDivision

  /** Each weight divided by their sum; the division fails when the sum is 0
      and there is something to divide. */
  function Normalise(dom: seq<Value>, unnorm: seq<real>): (r: Result<map<Value, real>, QueryError>)
    requires |dom| == |unnorm|
    ensures r.Failure? <==> dom != [] && Sum(unnorm) == 0.0
    ensures r.Success? ==> r.value.Keys == Elements(dom)
  {
    var p := Sum(unnorm);
    if dom == [] then Success(map[])
    else if p == 0.0 then Failure(ZeroDivision)
    else Success(ZipToMap(dom, Quotients(unnorm, p)))
  }

  /** A successful normalisation maps each value of a domain without
      repeats to its weight divided by the sum of the weights. */
  lemma NormaliseAt(dom: seq<Value>, unnorm: seq<real>, i: int)
    requires |dom| == |unnorm| && Distinct(dom) && 0 <= i < |dom|
    requires Normalise(dom, unnorm).Success?
    ensures Sum(unnorm) != 0.0
    ensures Normalise(dom, unnorm).value[dom[i]] == unnorm[i] / Sum(unnorm)
  {
    var p := Sum(unnorm);
    var q := Quotients(unnorm, p);
    assert Normalise(dom, unnorm) == Success(ZipToMap(dom, q));
    DistinctAfter(dom, i);
    ZipToMapAt(dom, q, i);
  }

  function Quotients(u: seq<real>, p: real): (q: seq<real>)
    requires p != 0.0
    ensures |q| == |u| && forall i :: 0 <= i < |u| ==> q[i] == u[i] / p
  {
    seq(|u|, i requires 0 <= i < |u| => u[i] / p)
  }

  lemma DivAdd(a: real, b: real, p: real)
    requires p != 0.0
    ensures a / p + b / p == (a + b) / p
  {
  }

  lemma {:induction false} SumQuotients(u: seq<real>, p: real)
    requires p != 0.0
    ensures Sum(Quotients(u, p)) == Sum(u) / p
  {
    if u != [] {
      var n := |u| - 1;
      assert Quotients(u, p)[..n] == Quotients(u[..n], p);
      SumQuotients(u[..n], p);
      DivAdd(Sum(u[..n]), u[n], p);
    }
  }

  /** The values of `m` for the keys of `dom`, in the order of `dom`. */
  function Column(m: map<Value, real>, dom: seq<Value>): (c: seq<real>)
    requires forall v :: v in dom ==> v in m
    ensures |c| == |dom| && forall i :: 0 <= i < |dom| ==> c[i] == m[dom[i]]
  {
    seq(|dom|, i requires 0 <= i < |dom| => m[dom[i]])
  }

  /** Over a domain without repeats, a successful normalisation sums to 1. */
  lemma NormaliseSumsToOne(dom: seq<Value>, unnorm: seq<real>)
    requires |dom| == |unnorm| && Distinct(dom)
    requires Sum(unnorm) != 0.0
    ensures Normalise(dom, unnorm).Success?
    ensures Sum(Column(Normalise(dom, unnorm).value, dom)) == 1.0
  {
    var p := Sum(unnorm);
    var m := Normalise(dom, unnorm).value;
    var c, q := Column(m, dom), Quotients(unnorm, p);
    forall i | 0 <= i < |dom| ensures c[i] == q[i] {
      NormaliseAt(dom, unnorm, i);
    }
    assert c == q;
    SumQuotients(unnorm, p);
    DivSelf(p);
  }

  lemma DivSelf(p: real)
    requires p != 0.0
    ensures p / p == 1.0
  {
  }

  /** The model's factors mention exactly its variables, and neither list repeats. */
  predicate ModelValid(gm: GraphicalModel)
  {
    Distinct(gm.variables) && Distinct(gm.factors)
    && Vars(Elements(gm.factors)) == Elements(gm.variables)
  }

  /** What query divides: rc0's sum for each value of the query variable. */
  ghost function Unnorm(gm: GraphicalModel, x: Variable, obs: Context, order: seq<Variable>): (u: seq<real>)
    requires Covers(obs, gm.factors, order + [x])
    ensures |u| == |x.domain|
  {
    seq(|x.domain|, i requires 0 <= i < |x.domain| =>
      CoversAfterQueryValue(obs, gm.factors, order, x, x.domain[i]);
      Rc0Sum(DictUnion(map[x := x.domain[i]], obs), gm.factors, order))
  }

  lemma UnnormAt(gm: GraphicalModel, x: Variable, obs: Context, order: seq<Variable>, i: int)
    requires Covers(obs, gm.factors, order + [x]) && 0 <= i < |x.domain|
    ensures Covers(DictUnion(map[x := x.domain[i]], obs), gm.factors, order)
    ensures Unnorm(gm, x, obs, order)[i] == Rc0Sum(DictUnion(map[x := x.domain[i]], obs), gm.factors, order)
  {
    CoversAfterQueryValue(obs, gm.factors, order, x, x.domain[i]);
  }

  lemma CoversAfterQueryValue(obs: Context, fs: seq<Factor>, order: seq<Variable>, x: Variable, a: Value)
    requires Covers(obs, fs, order + [x])
    ensures Covers(DictUnion(map[x := a], obs), fs, order)
  {
    forall f, v | f in fs && v in f.scope ensures v in DictUnion(map[x := a], obs) || v in order {
      assert v in obs || v in order + [x];
    }
  }

  // ---------------------------------------------------------------------------

  class RC {
    const gm: GraphicalModel
    var cache: map<CacheKey, real>

    /** Every cache entry holds the sum it stands for, and the initial
        (empty context, no factors) entry is present. */
    ghost predicate Valid()
      reads this
    {
      && CacheElt(map[], []) in cache
      && forall k :: k in cache ==> cache[k] == Meaning(k)
    }

    constructor (gm: GraphicalModel)
      ensures this.gm == gm
      ensures cache == map[CacheElt(map[], []) := 1.0]
      ensures Valid()
    {
      this.gm := gm;
      cache := map[CacheElt(map[], []) := 1.0];
      InitialEntry();
    }

    /** rc0: the plain recursion, proved to compute Rc0Sum. */
    method Rc0(ctx: Context, fs: seq<Factor>, order: seq<Variable>) returns (r: real)
      requires Covers(ctx, fs, order)
      ensures r == Rc0Sum(ctx, fs, order)
      decreases |order|
    {
      if order == [] {
        r := Prod(FactorValues(fs, ctx));
      } else {
        var total := 0.0;
        var x := order[|order| - 1];
        var rest := order[..|order| - 1];
        var dom := x.domain;
        assert forall v :: v in order ==> v == x || v in rest;
        for i := 0 to |dom|
          invariant total == BranchSum(ctx, fs, order, dom[..i])
        {
          assert dom[..i + 1][..i] == dom[..i];
          var t := Rc0(DictUnion(map[x := dom[i]], ctx), fs, rest);
          total := total + t;
        }
        assert dom[..|dom|] == dom;
        r := total;
      }
    }

    /** rc: the same sum, with the cache, forgetting and early evaluation.
        The order must list, without repeats, exactly the variables the
        factors mention that the context does not assign. */
    method Rc(ctx: Context, fs: seq<Factor>, order: seq<Variable>) returns (r: real)
      requires Valid()
      requires Distinct(fs) && Distinct(order)
      requires Elements(order) == Vars(Elements(fs)) - ctx.Keys
      modifies this
      ensures Valid()
      ensures forall k :: k in old(cache) ==> k in cache && cache[k] == old(cache)[k]
      ensures r == FreeSum(ctx, Elements(fs), Elements(order))
      decreases |order|, |fs|, |ctx.Keys|, 1
    {
      var ce := CacheElt(ctx, fs);
      if ce in cache {
        r := cache[ce];
        return;
      }
      var gone := ForgottenVars(ctx, fs);
      if gone != {} {
        ForgetStep(ctx, fs, order);
        r := Rc(Forget(ctx, gone), fs, order);
        return;
      }
      var toEval := ToEval(ctx, fs);
      if toEval != [] {
        var rest := Remaining(fs, toEval);
        EvalSets(ctx, fs, toEval, rest, order);
        assert toEval[0] in fs && toEval[0] in toEval;
        r := Evaluate(ctx, fs, order, toEval, rest);
        return;
      }
      BranchOrderNonEmpty(ctx, fs, order);
      r := BranchOn(ctx, fs, order);
    }

    /** The evaluation step: the product of the fully assigned factors `es`;
        when it is 0 the result is 0 without recursing, otherwise it is
        multiplied by rc on the other factors `rest`. */
    method Evaluate(ctx: Context, fs: seq<Factor>, order: seq<Variable>, es: seq<Factor>, rest: seq<Factor>)
      returns (r: real)
      requires Valid()
      requires Distinct(es) && Distinct(rest) && Distinct(order)
      requires forall f :: f in es ==> Assigns(ctx, f)
      requires Elements(es) <= Elements(fs) && Elements(rest) == Elements(fs) - Elements(es)
      requires Elements(order) == Vars(Elements(rest)) - ctx.Keys
      requires |rest| < |fs|
      modifies this
      ensures Valid()
      ensures forall k :: k in old(cache) ==> k in cache && cache[k] == old(cache)[k]
      ensures r == FreeSum(ctx, Elements(fs), Elements(order))
      decreases |order|, |fs|, 0, 0
    {
      var val := ProductOfValues(ctx, es);
      ghost var efs, ees, erest, vs := Elements(fs), Elements(es), Elements(rest), Elements(order);
      if val == 0.0 {
        r := 0.0;
        FactorOutRest(ctx, efs, ees, vs, val, FreeSum(ctx, erest, vs));
      } else {
        var t := Rc(ctx, rest, order);
        r := val * t;
        FactorOutRest(ctx, efs, ees, vs, val, t);
      }
    }

    /** The branching step: the total over the values of the last variable of
        the order, stored in the cache under the key of (ctx, fs). */
    method BranchOn(ctx: Context, fs: seq<Factor>, order: seq<Variable>) returns (r: real)
      requires Valid()
      requires Distinct(fs) && Distinct(order) && order != []
      requires Elements(order) == Vars(Elements(fs)) - ctx.Keys
      modifies this
      ensures Valid()
      ensures forall k :: k in old(cache) ==> k in cache && cache[k] == old(cache)[k]
      ensures CacheElt(ctx, fs) in cache && cache[CacheElt(ctx, fs)] == r
      ensures r == FreeSum(ctx, Elements(fs), Elements(order))
      decreases |order|, |fs|, 0, 0
    {
      var total := 0.0;
      var x := order[|order| - 1];
      var init := order[..|order| - 1];
      var dom := x.domain;
      ghost var efs, vs := Elements(fs), Elements(order);
      BranchRest(order);
      for i := 0 to |dom|
        invariant Valid()
        invariant forall k :: k in old(cache) ==> k in cache && cache[k] == old(cache)[k]
        invariant total == BranchTotal(ctx, efs, vs, x, dom[..i])
      {
        var c := DictUnion(map[x := dom[i]], ctx);
        BranchContext(ctx, fs, order, dom[i]);
        var t := Rc(c, fs, init);
        BranchStep(ctx, efs, vs, x, dom, i, total, t);
        total := total + t;
      }
      assert dom[..|dom|] == dom;
      BranchTotalIsSumOver(ctx, efs, vs, x, dom);
      FreeSumAny(ctx, efs, vs, x);
      cache := cache[CacheElt(ctx, fs) := total];
      r := total;
    }

    /** query: P(x | obs).  With x observed, 1 for the observed value and 0
        for the others; otherwise rc's weight for each value of x, normalised. */
    method Query(x: Variable, obs: Context, elimOrder: Option<seq<Variable>>)
      returns (r: Result<map<Value, real>, QueryError>)
      requires Valid() && ModelValid(gm)
      requires elimOrder.Some? ==>
        Distinct(elimOrder.value) && Elements(elimOrder.value) == Elements(gm.variables) - obs.Keys - {x}
      modifies this
      ensures Valid()
      ensures x in obs ==> r == Success(ObservedDist(x.domain, obs[x]))
      ensures x !in obs ==>
        var order := if elimOrder.Some? then elimOrder.value else DefaultOrder(gm.variables, obs, x);
        && Covers(obs, gm.factors, order + [x])
        && r == Normalise(x.domain, Unnorm(gm, x, obs, order))
    {
      if x in obs {
        r := Success(ObservedDist(x.domain, obs[x]));
        return;
      }
      var order := if elimOrder.Some? then elimOrder.value else DefaultOrder(gm.variables, obs, x);
      assert Elements(order) == Vars(Elements(gm.factors)) - obs.Keys - {x};
      QueryCovers(gm, x, obs, order);
      var unnorm: seq<real> := [];
      ghost var u := Unnorm(gm, x, obs, order);
      for i := 0 to |x.domain|
        invariant Valid()
        invariant unnorm == u[..i]
      {
        var c := DictUnion(map[x := x.domain[i]], obs);
        QueryContext(gm, x, obs, order, x.domain[i]);
        var w := Rc(c, gm.factors, order);
        Rc0SumIsFreeSum(c, gm.factors, order);
        UnnormAt(gm, x, obs, order, i);
        TakeSnoc(u, i);
        unnorm := unnorm + [w];
      }
      assert u[..|x.domain|] == u;
      r := Normalise(x.domain, unnorm);
    }
  }

  /** The context of each recursive call of the branching step, and the
      requirement of rc that it meets. */
  lemma BranchContext(ctx: Context, fs: seq<Factor>, order: seq<Variable>, a: Value)
    requires Distinct(order) && order != []
    requires Elements(order) == Vars(Elements(fs)) - ctx.Keys
    ensures var x, init := order[|order| - 1], order[..|order| - 1];
      && DictUnion(map[x := a], ctx) == ctx[x := a]
      && Distinct(init)
      && Elements(init) == Vars(Elements(fs)) - ctx[x := a].Keys
  {
    var x := order[|order| - 1];
    BranchRest(order);
    assert x in Elements(order);
    var c := DictUnion(map[x := a], ctx);
    assert c.Keys == ctx[x := a].Keys;
  }

  /** Adding the sum for the value dom[i] extends the branch total by that value. */
  lemma BranchStep(ctx: Context, fs: set<Factor>, vs: set<Variable>, x: Variable,
                   dom: seq<Value>, i: int, total: real, t: real)
    requires x in vs && 0 <= i < |dom|
    requires total == BranchTotal(ctx, fs, vs, x, dom[..i])
    requires t == FreeSum(ctx[x := dom[i]], fs, vs - {x})
    ensures total + t == BranchTotal(ctx, fs, vs, x, dom[..i + 1])
  {
    assert dom[..i + 1][..i] == dom[..i];
  }

  /** The variable branched on leaves the rest of the order to be summed. */
  lemma BranchRest(order: seq<Variable>)
    requires Distinct(order) && order != []
    ensures Distinct(order[..|order| - 1])
    ensures Elements(order[..|order| - 1]) == Elements(order) - {order[|order| - 1]}
  {
    ElementsSnoc(order);
  }

  lemma QueryCovers(gm: GraphicalModel, x: Variable, obs: Context, order: seq<Variable>)
    requires Elements(order) == Vars(Elements(gm.factors)) - obs.Keys - {x}
    ensures Covers(obs, gm.factors, order + [x])
  {
    forall f, v | f in gm.factors && v in f.scope ensures v in obs || v in order + [x] {
      assert f in Elements(gm.factors);
      assert v in Vars(Elements(gm.factors));
      if v !in obs && v != x {
        assert v in Elements(order);
      }
    }
  }

  /** Each call of rc that query makes meets rc's requirement. */
  lemma QueryContext(gm: GraphicalModel, x: Variable, obs: Context, order: seq<Variable>, a: Value)
    requires x !in obs
    requires Elements(order) == Vars(Elements(gm.factors)) - obs.Keys - {x}
    requires Covers(obs, gm.factors, order + [x])
    ensures var c := DictUnion(map[x := a], obs);
      && Elements(order) == Vars(Elements(gm.factors)) - c.Keys
      && (forall v :: v in order ==> v !in c)
      && Covers(c, gm.factors, order)
  {
    CoversAfterQueryValue(obs, gm.factors, order, x, a);
  }
}
