// Collection helpers shared by the inference, planning and MDP modules:
// a right-biased dictionary merge and the argmax family, whose random
// tie-break is modelled as a nondeterministic choice among the maximal elements.
module Utilities {

  datatype Option<+T> = None | Some(value: T)

  datatype Result<+R, +E> = Success(value: R) | Failure(error: E)

  /** The running maximum of argmaxe starts at negative infinity. */
  datatype ExtReal = NegInf | Finite(r: real)

  /** `v > m` on the extended reals. */
  predicate Above(v: real, m: ExtReal)
  {
    m.NegInf? || v > m.r
  }

  /** dict_union: every key of either map; the value of `d2` wins on a shared key.
      Both arguments are values, so neither is changed. */
  function DictUnion<K, V>(d1: map<K, V>, d2: map<K, V>): (d: map<K, V>)
    ensures d.Keys == d1.Keys + d2.Keys
    ensures forall k :: k in d2 ==> d[k] == d2[k]
    ensures forall k :: k in d1 && k !in d2 ==> d[k] == d1[k]
  {
    d1 + d2
  }

  lemma DictUnionExample()
    ensures DictUnion(map[1 := 4, 2 := 5, 3 := 4], map[5 := 7, 2 := 9])
            == map[1 := 4, 2 := 9, 3 := 4, 5 := 7]
  {
    var d := DictUnion(map[1 := 4, 2 := 5, 3 := 4], map[5 := 7, 2 := 9]);
    assert d.Keys == {1, 2, 3, 5};
  }

  /** Largest value of a nonempty list of (element, value) pairs. */
  function MaxValue<E>(gen: seq<(E, real)>): (m: real)
    requires gen != []
    ensures forall i :: 0 <= i < |gen| ==> gen[i].1 <= m
    ensures exists i :: 0 <= i < |gen| && gen[i].1 == m
  {
    if |gen| == 1 then gen[0].1
    else
      var m0 := MaxValue(gen[..|gen| - 1]);
      var last := gen[|gen| - 1].1;
      assert forall i :: 0 <= i < |gen| - 1 ==> gen[..|gen| - 1][i] == gen[i];
      if last > m0 then last else m0
  }

  /** The elements whose value is `m`, in input order. */
  function MaximalElements<E>(gen: seq<(E, real)>, m: real): seq<E>
  {
    if gen == [] then []
    else
      var rest := MaximalElements(gen[..|gen| - 1], m);
      if gen[|gen| - 1].1 == m then rest + [gen[|gen| - 1].0] else rest
  }

  lemma {:induction false} MaximalElementsNone<E>(gen: seq<(E, real)>, m: real)
    requires forall i :: 0 <= i < |gen| ==> gen[i].1 < m
    ensures MaximalElements(gen, m) == []
  {
    if gen != [] {
      MaximalElementsNone(gen[..|gen| - 1], m);
    }
  }

  lemma {:induction false} MaximalElementsSound<E>(gen: seq<(E, real)>, m: real, e: E)
    requires e in MaximalElements(gen, m)
    ensures exists i :: 0 <= i < |gen| && gen[i] == (e, m)
  {
    var init := gen[..|gen| - 1];
    if e in MaximalElements(init, m) {
      MaximalElementsSound(init, m, e);
      var i :| 0 <= i < |init| && init[i] == (e, m);
      assert gen[i] == (e, m);
    } else {
      assert gen[|gen| - 1] == (e, m);
    }
  }

  /** Lines 19-25 of argmaxe: one pass that keeps the running maximum and
      the list of elements attaining it. */
  method MaximalElementsLoop<E>(gen: seq<(E, real)>) returns (maxv: ExtReal, maxvals: seq<E>)
    ensures gen == [] ==> maxv == NegInf && maxvals == []
    ensures gen != [] ==> maxv == Finite(MaxValue(gen))
                          && maxvals == MaximalElements(gen, MaxValue(gen))
  {
    maxv, maxvals := NegInf, [];
    for i := 0 to |gen|
      invariant i == 0 ==> maxv == NegInf && maxvals == []
      invariant i > 0 ==> maxv == Finite(MaxValue(gen[..i]))
                          && maxvals == MaximalElements(gen[..i], MaxValue(gen[..i]))
    {
      var (e, v) := gen[i];
      assert gen[..i + 1][..i] == gen[..i];
      if Above(v, maxv) {
        if i > 0 {
          assert forall j :: 0 <= j < i ==> gen[..i][j].1 < v;
          MaximalElementsNone(gen[..i], v);
        }
        maxvals, maxv := [e], Finite(v);
      } else if maxv == Finite(v) {
        maxvals := maxvals + [e];
      }
    }
    assert gen[..|gen|] == gen;
  }

  /** argmaxe: an element of maximal value, or None for an empty input
      (where the source's random.choice of an empty list raises). */
  method ArgMaxE<E>(gen: seq<(E, real)>) returns (r: Option<E>)
    ensures r.None? <==> gen == []
    ensures r.Some? ==> exists i :: 0 <= i < |gen| && gen[i] == (r.value, MaxValue(gen))
    ensures r.Some? ==> forall j :: 0 <= j < |gen| ==> gen[j].1 <= MaxValue(gen)
  {
    var maxv, maxvals := MaximalElementsLoop(gen);
    if maxvals == [] {
      if gen != [] {
        var i :| 0 <= i < |gen| && gen[i].1 == MaxValue(gen);
        MaximalElementsNotEmpty(gen, MaxValue(gen), i);
      }
      r := None;
    } else {
      var k :| 0 <= k < |maxvals|;
      MaximalElementsSound(gen, MaxValue(gen), maxvals[k]);
      r := Some(maxvals[k]);
    }
  }

  lemma {:induction false} MaximalElementsNotEmpty<E>(gen: seq<(E, real)>, m: real, i: int)
    requires 0 <= i < |gen| && gen[i].1 == m
    ensures MaximalElements(gen, m) != []
  {
    if i < |gen| - 1 {
      MaximalElementsNotEmpty(gen[..|gen| - 1], m, i);
    }
  }

  /** The (index, value) pairs that Python's enumerate yields. */
  function Enumerate(lst: seq<real>): (g: seq<(nat, real)>)
    ensures |g| == |lst|
    ensures forall i :: 0 <= i < |lst| ==> g[i] == (i, lst[i])
  {
    seq(|lst|, i requires 0 <= i < |lst| => (i, lst[i]))
  }

  /** argmax: an index of a maximal entry of the list. */
  method ArgMax(lst: seq<real>) returns (r: Option<nat>)
    ensures r.None? <==> lst == []
    ensures r.Some? ==> r.value < |lst| && forall j :: 0 <= j < |lst| ==> lst[j] <= lst[r.value]
  {
    var gen := Enumerate(lst);
    r := ArgMaxE(gen);
    if r.Some? {
      var i :| 0 <= i < |gen| && gen[i] == (r.value, MaxValue(gen));
      assert forall j :: 0 <= j < |lst| ==> gen[j].1 == lst[j];
    }
  }

  /** argmaxd: a key of maximal value.  `keys` lists the dictionary's keys in
      its iteration order, which is what dct.items() walks through. */
  method ArgMaxD<K>(keys: seq<K>, d: map<K, real>) returns (r: Option<K>)
    requires forall k :: k in d <==> k in keys
    ensures r.None? <==> d == map[]
    ensures r.Some? ==> r.value in d && forall k :: k in d ==> d[k] <= d[r.value]
  {
    var gen := seq(|keys|, i requires 0 <= i < |keys| => (keys[i], d[keys[i]]));
    r := ArgMaxE(gen);
    if r.Some? {
      var i :| 0 <= i < |gen| && gen[i] == (r.value, MaxValue(gen));
      assert keys[i] == r.value;
      assert r.value in d;
      forall k | k in d ensures d[k] <= d[r.value] {
        var j :| 0 <= j < |keys| && keys[j] == k;
        assert gen[j].1 == d[k];
      }
    } else {
      assert keys == [];
      assert d.Keys == {};
    }
  }
}
