// Folding a weight over a finite set with a commutative, associative
// operation: the set is taken apart in no fixed order, and the lemmas below
// say the order does not matter.  The inference module folds factor
// weights with real multiplication; keeping the operation abstract here
// keeps these inductions free of nonlinear arithmetic.  Lists without
// repeats, their sets of elements and subsequences are defined here too.
module SetProducts {

  /** Some element of a nonempty set. */
  ghost function Pick<T>(s: set<T>): (x: T)
    requires s != {}
    ensures x in s
  {
    var x :| x in s; x
  }

  ghost predicate Associative(m: (real, real) -> real)
  {
    forall a, b, c {:trigger m(a, m(b, c))} :: m(a, m(b, c)) == m(m(a, b), c)
  }

  /** The order of two operands combined into a third does not matter. */
  ghost predicate LeftCommutative(m: (real, real) -> real)
  {
    forall a, b, c {:trigger m(a, m(b, c))} :: m(a, m(b, c)) == m(b, m(a, c))
  }

  ghost predicate LeftUnit(m: (real, real) -> real, u: real)
  {
    forall a {:trigger m(u, a)} :: m(u, a) == a
  }

  ghost predicate Monoid(m: (real, real) -> real, u: real)
  {
    Associative(m) && LeftCommutative(m) && LeftUnit(m, u)
  }

  lemma AssociativeAt(m: (real, real) -> real, a: real, b: real, c: real)
    requires Associative(m)
    ensures m(a, m(b, c)) == m(m(a, b), c)
  {
  }

  lemma LeftCommutativeAt(m: (real, real) -> real, a: real, b: real, c: real)
    requires LeftCommutative(m)
    ensures m(a, m(b, c)) == m(b, m(a, c))
  {
  }

  lemma LeftUnitAt(m: (real, real) -> real, u: real, a: real)
    requires LeftUnit(m, u)
    ensures m(u, a) == a
  {
  }

  /** `w` combined by `m` over the set, starting from `u`. */
  ghost function Fold<T>(s: set<T>, w: T -> real, m: (real, real) -> real, u: real): real
    decreases |s|
  {
    if s == {} then u else var x := Pick(s); m(w(x), Fold(s - {x}, w, m, u))
  }

  /** Any element may be taken out first. */
  lemma {:induction false} FoldAny<T>(s: set<T>, w: T -> real, m: (real, real) -> real, u: real, x: T)
    requires LeftCommutative(m)
    requires x in s
    ensures Fold(s, w, m, u) == m(w(x), Fold(s - {x}, w, m, u))
    decreases |s|
  {
    var y := Pick(s);
    if y != x {
      assert s - {x} - {y} == s - {y} - {x};
      FoldAny(s - {y}, w, m, u, x);
      FoldAny(s - {x}, w, m, u, y);
      LeftCommutativeAt(m, w(y), w(x), Fold(s - {y} - {x}, w, m, u));
    }
  }

  /** Weights that agree on the set give the same fold. */
  lemma {:induction false} FoldCongruence<T>(s: set<T>, w1: T -> real, w2: T -> real,
                                           m: (real, real) -> real, u: real)
    requires forall x :: x in s ==> w1(x) == w2(x)
    ensures Fold(s, w1, m, u) == Fold(s, w2, m, u)
    decreases |s|
  {
    if s != {} {
      FoldCongruence(s - {Pick(s)}, w1, w2, m, u);
    }
  }

  /** The fold over a set combines the folds over a subset and over the rest. */
  lemma {:induction false} FoldSplit<T>(s: set<T>, e: set<T>, w: T -> real, m: (real, real) -> real, u: real)
    requires Monoid(m, u)
    requires e <= s
    ensures Fold(s, w, m, u) == m(Fold(e, w, m, u), Fold(s - e, w, m, u))
    decreases |e|
  {
    if e == {} {
      assert s - e == s;
      LeftUnitAt(m, u, Fold(s, w, m, u));
    } else {
      var x :| x in e;
      FoldSplit(s - {x}, e - {x}, w, m, u);
      FoldAny(s, w, m, u, x);
      FoldAny(e, w, m, u, x);
      assert (s - {x}) - (e - {x}) == s - e;
      AssociativeAt(m, w(x), Fold(e - {x}, w, m, u), Fold(s - e, w, m, u));
    }
  }

  /** Real multiplication, as an operation to fold with. */
  function Times(): (real, real) -> real
  {
    (a: real, b: real) => a * b
  }

  lemma TimesMonoid()
    ensures Monoid(Times(), 1.0)
  {
    forall a: real, b: real, c: real
      ensures Times()(a, Times()(b, c)) == Times()(Times()(a, b), c)
      ensures Times()(a, Times()(b, c)) == Times()(b, Times()(a, c))
    {
      assert a * (b * c) == (a * b) * c;
      assert a * (b * c) == b * (a * c);
    }
  }

  /** The product of `w` over a finite set. */
  ghost function SetProd<T>(s: set<T>, w: T -> real): real
  {
    Fold(s, w, Times(), 1.0)
  }

  /** x = Times(y, z), read with equal terms x', y', z' in place of x, y, z. */
  lemma TimesIs(x: real, y: real, z: real, x': real, y': real, z': real)
    requires x == Times()(y, z) && x == x' && y == y' && z == z'
    ensures x' == y' * z'
  {
  }

  lemma FoldAnyTimes<T>(s: set<T>, w: T -> real, x: T)
    requires x in s
    ensures Fold(s, w, Times(), 1.0) == Times()(w(x), Fold(s - {x}, w, Times(), 1.0))
  {
    TimesMonoid();
    FoldAny(s, w, Times(), 1.0, x);
  }

  lemma FoldSplitTimes<T>(s: set<T>, e: set<T>, w: T -> real)
    requires e <= s
    ensures Fold(s, w, Times(), 1.0) == Times()(Fold(e, w, Times(), 1.0), Fold(s - e, w, Times(), 1.0))
  {
    TimesMonoid();
    FoldSplit(s, e, w, Times(), 1.0);
  }

  lemma SetProdAny<T>(s: set<T>, w: T -> real, x: T)
    requires x in s
    ensures SetProd(s, w) == w(x) * SetProd(s - {x}, w)
  {
    FoldAnyTimes(s, w, x);
    TimesIs(Fold(s, w, Times(), 1.0), w(x), Fold(s - {x}, w, Times(), 1.0),
            SetProd(s, w), w(x), SetProd(s - {x}, w));
  }

  lemma SetProdSplit<T>(s: set<T>, e: set<T>, w: T -> real)
    requires e <= s
    ensures SetProd(s, w) == SetProd(e, w) * SetProd(s - e, w)
  {
    FoldSplitTimes(s, e, w);
    TimesIs(Fold(s, w, Times(), 1.0), Fold(e, w, Times(), 1.0), Fold(s - e, w, Times(), 1.0),
            SetProd(s, w), SetProd(e, w), SetProd(s - e, w));
  }

  /** The product of `w` along a list, multiplied left to right. */
  function SeqProd<T>(xs: seq<T>, w: T -> real): real
  {
    if xs == [] then 1.0 else SeqProd(xs[..|xs| - 1], w) * w(xs[|xs| - 1])
  }

  /** No element of the list occurs twice: the last one is not among the
      others, and the others have no repeats either. */
  predicate Distinct<T(==)>(xs: seq<T>)
  {
    xs == [] || (xs[|xs| - 1] !in xs[..|xs| - 1] && Distinct(xs[..|xs| - 1]))
  }

  /** A prefix one longer is the prefix with the next entry appended. */
  lemma TakeSnoc<T>(xs: seq<T>, i: int)
    requires 0 <= i < |xs|
    ensures xs[..i + 1] == xs[..i] + [xs[i]]
  {
  }

  /** No later entry of a list without repeats equals the one at `i`. */
  lemma {:induction false} DistinctAfter<T>(xs: seq<T>, i: int)
    requires Distinct(xs) && 0 <= i < |xs|
    ensures forall j :: i < j < |xs| ==> xs[j] != xs[i]
  {
    var n := |xs| - 1;
    if i < n {
      DistinctAfter(xs[..n], i);
      assert xs[..n][i] == xs[i];
      assert xs[i] in xs[..n];
      forall j | i < j < n ensures xs[j] != xs[i] {
        assert xs[..n][j] == xs[j];
      }
    }
  }

  function Elements<T(==)>(xs: seq<T>): set<T>
  {
    set x | x in xs
  }

  /** `xs` is `ys` with some elements left out and the others kept in order. */
  predicate Subsequence<T(==)>(xs: seq<T>, ys: seq<T>)
    decreases |ys|
  {
    if xs == [] then true
    else if ys == [] then false
    else if xs[|xs| - 1] == ys[|ys| - 1] then Subsequence(xs[..|xs| - 1], ys[..|ys| - 1])
    else Subsequence(xs, ys[..|ys| - 1])
  }

  lemma ElementsSnoc<T>(xs: seq<T>)
    requires Distinct(xs) && xs != []
    ensures Distinct(xs[..|xs| - 1])
    ensures xs[|xs| - 1] in Elements(xs)
    ensures Elements(xs) - {xs[|xs| - 1]} == Elements(xs[..|xs| - 1])
  {
    var init, last := xs[..|xs| - 1], xs[|xs| - 1];
    assert xs == init + [last];
    assert last !in init;
    assert Elements(xs) == Elements(init) + {last};
  }

  /** From x = ab, y = cd, a = d and b = c: x = y. */
  lemma MulFlip(x: real, a: real, b: real, y: real, c: real, d: real)
    requires x == a * b && y == c * d && a == d && b == c
    ensures x == y
  {
    assert a * b == b * a;
  }

  /** Along a list without repeats, the product is the product over its set of elements. */
  lemma {:induction false} SeqProdIsSetProd<T>(xs: seq<T>, w: T -> real)
    requires Distinct(xs)
    ensures SeqProd(xs, w) == SetProd(Elements(xs), w)
  {
    if xs != [] {
      var init, last := xs[..|xs| - 1], xs[|xs| - 1];
      ElementsSnoc(xs);
      SeqProdIsSetProd(init, w);
      SetProdAny(Elements(xs), w, last);
      MulFlip(SeqProd(xs, w), SeqProd(init, w), w(last),
              SetProd(Elements(xs), w), w(last), SetProd(Elements(xs) - {last}, w));
    }
  }
}
