// Regression planning with STRIPS actions: a search node is a subgoal, an
// action is a candidate when it achieves part of the subgoal without undoing
// any of it, and the next subgoal is its weakest precondition.  The lemmas at
// the end tie regression to forward application of the same action.
module StripsRegressionPlanner {
  import opened Utilities
  import opened StripsProblem
  import opened StripsForwardPlanner

  /** A search node: the assignment still to be achieved.  Two subgoals are
      equal exactly when their assignments are. */
  datatype Subgoal = Subgoal(assignment: Assignment)

  lemma SubgoalEquality(g1: Subgoal, g2: Subgoal)
    ensures g1 == g2 <==> g1.assignment == g2.assignment
  {
  }

  datatype RegressionStrips = RegressionStrips(probDomain: StripsDomain, topGoal: Subgoal,
                                               initialState: Assignment,
                                               heur: (Assignment, Assignment) -> int)

  /** Regression_STRIPS(planning_problem, heur=zero). */
  function NewRegressionStrips(problem: PlanningProblem, heur: (Assignment, Assignment) -> int := Zero)
    : (rs: RegressionStrips)
    ensures rs.probDomain == problem.probDomain
    ensures rs.topGoal == Subgoal(problem.goal)
    ensures rs.initialState == problem.initialState && rs.heur == heur
  {
    RegressionStrips(problem.probDomain, Subgoal(problem.goal), problem.initialState, heur)
  }

  /** is_goal: the subgoal is true in the initial state, which is looked up
      at every subgoal feature. */
  function IsGoal(rs: RegressionStrips, subgoal: Subgoal): (r: bool)
    requires subgoal.assignment.Keys <= rs.initialState.Keys
    ensures r <==> Holds(subgoal.assignment, rs.initialState)
  {
    forall g :: g in subgoal.assignment ==> rs.initialState[g] == subgoal.assignment[g]
  }

  function StartNode(rs: RegressionStrips): (g: Subgoal)
    ensures g == rs.topGoal
  {
    rs.topGoal
  }

  /** possible: the action gives some goal feature its goal value, gives no
      goal feature another value, and its preconditions agree with the goal
      on the goal features it leaves alone. */
  predicate Possible(act: Strips, goalAsst: Assignment)
  {
    && (exists prop :: prop in act.effects && prop in goalAsst && goalAsst[prop] == act.effects[prop])
    && (forall prop :: prop in act.effects && prop in goalAsst ==> goalAsst[prop] == act.effects[prop])
    && (forall prop :: prop in act.preconds && prop !in act.effects && prop in goalAsst
                       ==> goalAsst[prop] == act.preconds[prop])
  }

  /** The weakest precondition: the preconditions, overridden by the goal on
      every goal feature the action does not set. */
  function Regressed(act: Strips, goalAsst: Assignment): (w: Assignment)
    ensures w.Keys == act.preconds.Keys + (goalAsst.Keys - act.effects.Keys)
    ensures forall g :: g in goalAsst && g !in act.effects ==> w[g] == goalAsst[g]
    ensures forall f :: f in act.preconds && (f !in goalAsst || f in act.effects) ==> w[f] == act.preconds[f]
  {
    act.preconds + map g | g in goalAsst && g !in act.effects :: goalAsst[g]
  }

  /** weakest_precond: copy the preconditions, then write each goal feature
      the action does not set. */
  method WeakestPrecond(act: Strips, goalAsst: Assignment) returns (sg: Subgoal)
    ensures sg.assignment == Regressed(act, goalAsst)
  {
    var newAsst := act.preconds;
    var done: set<Feature> := {};
    RegressedOnNone(act, goalAsst);
    RegressedOnAll(act, goalAsst);
    while done != goalAsst.Keys
      invariant done <= goalAsst.Keys
      invariant newAsst == RegressedOn(act, goalAsst, done)
      decreases goalAsst.Keys - done
    {
      assert exists g :: g in goalAsst.Keys && g !in done;
      var g :| g in goalAsst.Keys && g !in done;
      RegressedOnStep(act, goalAsst, done, g);
      if g !in act.effects {
        newAsst := newAsst[g := goalAsst[g]];
      }
      done := done + {g};
    }
    sg := Subgoal(newAsst);
  }

  /** The preconditions overridden by the goal on the features of `done`
      that the action does not set. */
  function RegressedOn(act: Strips, goalAsst: Assignment, done: set<Feature>): Assignment
  {
    act.preconds + map g | g in goalAsst && g in done && g !in act.effects :: goalAsst[g]
  }

  lemma RegressedOnNone(act: Strips, goalAsst: Assignment)
    ensures RegressedOn(act, goalAsst, {}) == act.preconds
  {
    assert RegressedOn(act, goalAsst, {}).Keys == act.preconds.Keys;
  }

  lemma RegressedOnAll(act: Strips, goalAsst: Assignment)
    ensures RegressedOn(act, goalAsst, goalAsst.Keys) == Regressed(act, goalAsst)
  {
  }

  lemma RegressedOnStep(act: Strips, goalAsst: Assignment, done: set<Feature>, g: Feature)
    requires g in goalAsst
    ensures g !in act.effects ==>
              RegressedOn(act, goalAsst, done + {g}) == RegressedOn(act, goalAsst, done)[g := goalAsst[g]]
    ensures g in act.effects ==> RegressedOn(act, goalAsst, done + {g}) == RegressedOn(act, goalAsst, done)
  {
    var before, after := RegressedOn(act, goalAsst, done), RegressedOn(act, goalAsst, done + {g});
    if g !in act.effects {
      assert after.Keys == before.Keys + {g};
    } else {
      assert after.Keys == before.Keys;
    }
  }

  /** neighbors: one arc for each action possible for the subgoal, to its
      weakest precondition, with the action's cost. */
  function Neighbors(rs: RegressionStrips, subgoal: Subgoal): (arcs: set<Arc<Subgoal>>)
    ensures forall act :: act in rs.probDomain.actions && Possible(act, subgoal.assignment)
                          ==> Arc(subgoal, Subgoal(Regressed(act, subgoal.assignment)), act.cost, act) in arcs
    ensures forall arc :: arc in arcs ==>
              && arc.fromNode == subgoal
              && arc.action in rs.probDomain.actions
              && Possible(arc.action, subgoal.assignment)
              && arc.toNode == Subgoal(Regressed(arc.action, subgoal.assignment))
              && arc.cost == arc.action.cost
  {
    set act | act in rs.probDomain.actions && Possible(act, subgoal.assignment)
            :: Arc(subgoal, Subgoal(Regressed(act, subgoal.assignment)), act.cost, act)
  }

  /** The heuristic of a node is heur(initial state, subgoal). */
  function Heuristic(rs: RegressionStrips, subgoal: Subgoal): int
  {
    rs.heur(rs.initialState, subgoal.assignment)
  }

  lemma DefaultHeuristicZero(problem: PlanningProblem, subgoal: Subgoal)
    ensures Heuristic(NewRegressionStrips(problem), subgoal) == 0
  {
  }

  /** Soundness: in a state where the weakest precondition holds, a possible
      action can be done forward and its effect satisfies the goal. */
  lemma RegressionSound(act: Strips, goalAsst: Assignment, s: Assignment)
    requires Possible(act, goalAsst)
    requires Holds(Regressed(act, goalAsst), s)
    ensures act.preconds.Keys <= s.Keys && StripsForwardPlanner.Possible(act, s)
    ensures Holds(goalAsst, Effect(act, s).assignment)
  {
    var w := Regressed(act, goalAsst);
    var t := Effect(act, s).assignment;
    forall f | f in act.preconds ensures f in s && s[f] == act.preconds[f] {
      assert f in w;
      if f in goalAsst && f !in act.effects {
        assert w[f] == goalAsst[f];
      }
    }
    forall g | g in goalAsst ensures g in t && t[g] == goalAsst[g] {
      if g !in act.effects {
        assert g in w && w[g] == goalAsst[g];
      }
    }
  }

  /** The weakest precondition is weakest: any state from which the action
      can be done and reaches the goal satisfies it. */
  lemma RegressedWeakest(act: Strips, goalAsst: Assignment, s: Assignment)
    requires act.preconds.Keys <= s.Keys && StripsForwardPlanner.Possible(act, s)
    requires Holds(goalAsst, Effect(act, s).assignment)
    ensures Holds(Regressed(act, goalAsst), s)
  {
    var w := Regressed(act, goalAsst);
    var t := Effect(act, s).assignment;
    forall f | f in w ensures f in s && s[f] == w[f] {
      if f in goalAsst && f !in act.effects {
        assert t[f] == s[f];
      }
    }
  }

  /** Completeness: an action that can be done forward, reaches the goal and
      sets at least one goal feature passes the regression test. */
  lemma RegressionComplete(act: Strips, goalAsst: Assignment, s: Assignment, f0: Feature)
    requires act.preconds.Keys <= s.Keys && StripsForwardPlanner.Possible(act, s)
    requires Holds(goalAsst, Effect(act, s).assignment)
    requires f0 in act.effects && f0 in goalAsst
    ensures Possible(act, goalAsst)
  {
    var t := Effect(act, s).assignment;
    assert t[f0] == act.effects[f0];
    forall prop | prop in act.preconds && prop !in act.effects && prop in goalAsst
      ensures goalAsst[prop] == act.preconds[prop]
    {
      assert t[prop] == s[prop];
    }
  }

  /** An action that sets none of the goal features is not possible. */
  lemma PossibleNeedsAchievement(act: Strips, goalAsst: Assignment)
    requires act.effects.Keys !! goalAsst.Keys
    ensures !Possible(act, goalAsst)
  {
  }

  /** In the delivery domain, delivering coffee achieves "SWC is false"; what
      remains is to be in the office holding coffee. */
  lemma DeliverCoffeeRegresses()
    ensures var dc := NewStrips("dc", map["RLoc" := Loc("off"), "RHC" := Truth(true)],
                                      map["RHC" := Truth(false), "SWC" := Truth(false)]);
            Possible(dc, Problem1.goal)
            && Regressed(dc, Problem1.goal) == map["RLoc" := Loc("off"), "RHC" := Truth(true)]
  {
    var dc := NewStrips("dc", map["RLoc" := Loc("off"), "RHC" := Truth(true)],
                              map["RHC" := Truth(false), "SWC" := Truth(false)]);
    assert "SWC" in dc.effects && "SWC" in Problem1.goal;
    assert Problem1.goal.Keys == {"SWC"};
    assert Regressed(dc, Problem1.goal).Keys == dc.preconds.Keys;
  }
}
