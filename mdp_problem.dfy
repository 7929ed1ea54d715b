// Markov decision processes and value iteration.  A process lists its
// states and actions, has a discount, a transition function giving the
// successor distribution of a state and action as (successor, probability)
// pairs, and a reward function.  Value iteration alternates a Q-backup with
// a maximum over actions and ends with a greedy policy.
module MdpProblem {
  import opened Utilities

  /** The transition and reward functions may be partial: they need only be
      defined on the states and actions of the process. */
  datatype Mdp<!S, !A> = Mdp(states: seq<S>, actions: seq<A>, discount: real,
                           P: (S, A) --> seq<(S, real)>, R: (S, A) --> real)

  /** P and R can be applied to every state and action of the process. */
  ghost predicate Defined<S, A>(mdp: Mdp<S, A>)
  {
    forall s, a :: s in mdp.states && a in mdp.actions ==> mdp.P.requires(s, a) && mdp.R.requires(s, a)
  }

  function StateSet<S(==), A>(mdp: Mdp<S, A>): set<S>
  {
    set s | s in mdp.states
  }

  function ActionSet<S, A(==)>(mdp: Mdp<S, A>): set<A>
  {
    set a | a in mdp.actions
  }

  /** Every successor of the distribution is among `keys`. */
  predicate Supported<S>(dist: seq<(S, real)>, keys: set<S>)
  {
    forall i :: 0 <= i < |dist| ==> dist[i].0 in keys
  }

  /** Every successor of every state and action is among `keys`. */
  ghost predicate SuccessorsIn<S, A>(mdp: Mdp<S, A>, keys: set<S>)
  {
    Defined(mdp) && forall s, a :: s in mdp.states && a in mdp.actions ==> Supported(mdp.P(s, a), keys)
  }

  /** The total probability of a distribution. */
  function Mass<S>(dist: seq<(S, real)>): real
  {
    if dist == [] then 0.0 else dist[0].1 + Mass(dist[1..])
  }

  /** The expected value of `v` under the distribution: the sum of p1 * v[s1]. */
  function Expect<S>(dist: seq<(S, real)>, v: map<S, real>): real
    requires Supported(dist, v.Keys)
  {
    if dist == [] then 0.0 else dist[0].1 * v[dist[0].0] + Expect(dist[1..], v)
  }

  /** A value function that is 0 on every successor has expected value 0. */
  lemma {:induction false} ExpectZero<S>(dist: seq<(S, real)>, v: map<S, real>)
    requires Supported(dist, v.Keys)
    requires forall i :: 0 <= i < |dist| ==> v[dist[i].0] == 0.0
    ensures Expect(dist, v) == 0.0
  {
    if dist != [] {
      assert Supported(dist[1..], v.Keys) by {
        forall i | 0 <= i < |dist[1..]| ensures dist[1..][i].0 in v.Keys {
          assert dist[1..][i] == dist[i + 1];
        }
      }
      forall i | 0 <= i < |dist[1..]| ensures v[dist[1..][i].0] == 0.0 {
        assert dist[1..][i] == dist[i + 1];
      }
      ExpectZero(dist[1..], v);
      assert v[dist[0].0] == 0.0;
    }
  }

  /** q is keyed by exactly the states, and each q[s] by exactly the actions. */
  predicate Shaped<S(==), A(==)>(mdp: Mdp<S, A>, q: map<S, map<A, real>>)
  {
    q.Keys == StateSet(mdp) && forall s :: s in q ==> q[s].Keys == ActionSet(mdp)
  }

  /** One Q-backup: q[s][a] = R(s,a) + discount * (expected v after doing a in s). */
  function QBackup<S(==), A(==)>(mdp: Mdp<S, A>, v: map<S, real>): (q: map<S, map<A, real>>)
    requires SuccessorsIn(mdp, v.Keys)
    ensures Shaped(mdp, q)
  {
    map s | s in mdp.states :: map a | a in mdp.actions :: mdp.R(s, a) + mdp.discount * Expect(mdp.P(s, a), v)
  }

  /** The largest entry of `row` over the listed actions. */
  function MaxOver<A(==)>(row: map<A, real>, acts: seq<A>): (m: real)
    requires acts != []
    requires forall a :: a in acts ==> a in row
    ensures forall a :: a in acts ==> row[a] <= m
    ensures exists a :: a in acts && row[a] == m
    decreases |acts|
  {
    if |acts| == 1 then row[acts[0]]
    else
      var rest := MaxOver(row, acts[1..]);
      assert forall a :: a in acts ==> a == acts[0] || a in acts[1..];
      if row[acts[0]] >= rest then row[acts[0]] else rest
  }

  /** v[s] = max over the actions of q[s][a]. */
  function ValueOf<S(==), A(==)>(mdp: Mdp<S, A>, q: map<S, map<A, real>>): (v: map<S, real>)
    requires mdp.actions != [] && Shaped(mdp, q)
    ensures v.Keys == StateSet(mdp)
    ensures forall s, a :: s in mdp.states && a in mdp.actions ==> q[s][a] <= v[s]
    ensures forall s :: s in mdp.states ==> exists a :: a in mdp.actions && q[s][a] == v[s]
  {
    map s | s in mdp.states :: MaxOver(q[s], mdp.actions)
  }

  /** The starting value: v0 if given, otherwise 0 for every state. */
  function Start<S(==), A>(mdp: Mdp<S, A>, v0: Option<map<S, real>>): (v: map<S, real>)
    ensures v0.None? ==> v.Keys == StateSet(mdp) && forall s :: s in v ==> v[s] == 0.0
    ensures v0.Some? ==> v == v0.value
  {
    if v0.None? then map s | s in mdp.states :: 0.0 else v0.value
  }

  /** The value function after k iterations from v.  The first backup looks
      up v at the successors; later ones look up the previous value, which
      is keyed by the states. */
  function Iter<S(==), A(==)>(mdp: Mdp<S, A>, v: map<S, real>, k: nat): (r: map<S, real>)
    requires mdp.actions != []
    requires SuccessorsIn(mdp, v.Keys)
    requires k > 1 ==> SuccessorsIn(mdp, StateSet(mdp))
    ensures k == 0 ==> r == v
    ensures k > 0 ==> r.Keys == StateSet(mdp)
  {
    if k == 0 then v else ValueOf(mdp, QBackup(mdp, Iter(mdp, v, k - 1)))
  }

  /** One more iteration is a backup and a maximum of the last value. */
  lemma IterNext<S, A>(mdp: Mdp<S, A>, v: map<S, real>, k: nat)
    requires mdp.actions != []
    requires SuccessorsIn(mdp, v.Keys)
    requires k > 0 ==> SuccessorsIn(mdp, StateSet(mdp))
    ensures Iter(mdp, v, k + 1) == ValueOf(mdp, QBackup(mdp, Iter(mdp, v, k)))
  {
  }

  /** After k > 0 iterations, the value of a state is the largest Q-value of
      the last backup there: at least every q[s][a] and equal to one. */
  lemma IterIsMax<S, A>(mdp: Mdp<S, A>, v: map<S, real>, k: nat)
    requires mdp.actions != []
    requires SuccessorsIn(mdp, v.Keys)
    requires k > 1 ==> SuccessorsIn(mdp, StateSet(mdp))
    requires k > 0
    ensures var q, w := QBackup(mdp, Iter(mdp, v, k - 1)), Iter(mdp, v, k);
      && (forall s, a :: s in mdp.states && a in mdp.actions ==> q[s][a] <= w[s])
      && (forall s :: s in mdp.states ==> exists a :: a in mdp.actions && q[s][a] == w[s])
  {
    IterNext(mdp, v, k - 1);
  }

  /** vi: n rounds of Q-backup and maximum, then a policy choosing, in each
      state, an action of largest Q-value. */
  method Vi<S(==), A(==)>(mdp: Mdp<S, A>, n: int, v0: Option<map<S, real>>)
    returns (q: map<S, map<A, real>>, v: map<S, real>, pi: map<S, A>)
    requires n > 0
    requires mdp.actions != []
    requires SuccessorsIn(mdp, Start(mdp, v0).Keys)
    requires n > 1 ==> SuccessorsIn(mdp, StateSet(mdp))
    ensures q == QBackup(mdp, Iter(mdp, Start(mdp, v0), n - 1))
    ensures v == Iter(mdp, Start(mdp, v0), n)
    ensures Greedy(mdp, q, v, pi)
  {
    var start := Start(mdp, v0);
    v := start;
    q := map[];
    var i := 0;
    while i < n
      invariant 0 <= i <= n
      invariant v == Iter(mdp, start, i)
      invariant i > 0 ==> q == QBackup(mdp, Iter(mdp, start, i - 1))
    {
      IterNext(mdp, start, i);
      q := QBackup(mdp, v);
      v := ValueOf(mdp, q);
      i := i + 1;
    }
    IterNext(mdp, start, n - 1);
    pi := Policy(mdp, q, v);
  }

  /** q is keyed by the states and then the actions, v and pi by the states,
      and in every state pi picks an action whose Q-value is v[s]. */
  predicate Greedy<S(==), A(==)>(mdp: Mdp<S, A>, q: map<S, map<A, real>>, v: map<S, real>, pi: map<S, A>)
  {
    && Shaped(mdp, q) && v.Keys == StateSet(mdp) && pi.Keys == StateSet(mdp)
    && forall s :: s in mdp.states ==> pi[s] in mdp.actions && q[s][pi[s]] == v[s]
  }

  /** {s: argmaxd(q[s]) for s in states}: in each state an action of largest
      Q-value, which therefore attains v[s]. */
  method Policy<S(==), A(==)>(mdp: Mdp<S, A>, q: map<S, map<A, real>>, v: map<S, real>) returns (pi: map<S, A>)
    requires mdp.actions != [] && Shaped(mdp, q) && v.Keys == StateSet(mdp)
    requires forall s, a :: s in mdp.states && a in mdp.actions ==> q[s][a] <= v[s]
    requires forall s :: s in mdp.states ==> exists a :: a in mdp.actions && q[s][a] == v[s]
    ensures Greedy(mdp, q, v, pi)
  {
    pi := map[];
    var j := 0;
    while j < |mdp.states|
      invariant 0 <= j <= |mdp.states|
      invariant forall s :: s in pi <==> s in mdp.states[..j]
      invariant forall s :: s in pi ==> pi[s] in mdp.actions && q[s][pi[s]] == v[s]
    {
      var s := mdp.states[j];
      var r := ArgMaxD(mdp.actions, q[s]);
      PolicyValue(mdp, q, v, s, r);
      pi := pi[s := r.value];
      assert mdp.states[..j + 1] == mdp.states[..j] + [s];
      j := j + 1;
    }
    assert mdp.states[..j] == mdp.states;
  }

  /** An action of largest Q-value in s attains v[s]. */
  lemma PolicyValue<S, A>(mdp: Mdp<S, A>, q: map<S, map<A, real>>, v: map<S, real>, s: S,
                                  r: Option<A>)
    requires mdp.actions != [] && Shaped(mdp, q) && v.Keys == StateSet(mdp) && s in mdp.states
    requires forall s, a :: s in mdp.states && a in mdp.actions ==> q[s][a] <= v[s]
    requires forall s :: s in mdp.states ==> exists a :: a in mdp.actions && q[s][a] == v[s]
    requires r.None? <==> q[s] == map[]
    requires r.Some? ==> r.value in q[s] && forall k :: k in q[s] ==> q[s][k] <= q[s][r.value]
    ensures r.Some? && r.value in mdp.actions && q[s][r.value] == v[s]
  {
    assert mdp.actions[0] in q[s];
    var a :| a in mdp.actions && q[s][a] == v[s];
  }

  /** Starting from 0 everywhere, the first backup is the reward itself. */
  lemma FirstBackupIsReward<S, A>(mdp: Mdp<S, A>)
    requires SuccessorsIn(mdp, StateSet(mdp))
    ensures var q := QBackup(mdp, Start(mdp, None));
      forall s, a :: s in mdp.states && a in mdp.actions ==> q[s][a] == mdp.R(s, a)
  {
    var zero := Start(mdp, None);
    forall s, a | s in mdp.states && a in mdp.actions
      ensures QBackup(mdp, zero)[s][a] == mdp.R(s, a)
    {
      var dist := mdp.P(s, a);
      assert Supported(dist, zero.Keys);
      ExpectZero(dist, zero);
    }
  }
}
