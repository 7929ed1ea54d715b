// Forward planning with STRIPS actions: a search node is a complete state,
// an action is applicable when its preconditions hold in the state, and
// applying it overrides the state with its effects.
module StripsForwardPlanner {
  import opened Utilities
  import opened StripsProblem

  /** A search node: a feature:value assignment.  Two states are equal
      exactly when their assignments are. */
  datatype State = State(assignment: Assignment)

  lemma StateEquality(s1: State, s2: State)
    ensures s1 == s2 <==> s1.assignment == s2.assignment
  {
  }

  /** zero: the heuristic that always estimates 0. */
  function Zero(state: Assignment, goal: Assignment): (h: int)
    ensures h == 0
  {
    0
  }

  /** heur(state, goal) estimates the cost from state to goal. */
  datatype ForwardStrips = ForwardStrips(probDomain: StripsDomain, initialState: State, goal: Assignment,
                                         heur: (Assignment, Assignment) -> int)

  /** Forward_STRIPS(planning_problem, heur=zero). */
  function NewForwardStrips(problem: PlanningProblem, heur: (Assignment, Assignment) -> int := Zero)
    : (fs: ForwardStrips)
    ensures fs.probDomain == problem.probDomain
    ensures fs.initialState == State(problem.initialState)
    ensures fs.goal == problem.goal && fs.heur == heur
  {
    ForwardStrips(problem.probDomain, State(problem.initialState), problem.goal, heur)
  }

  /** is_goal: every goal feature has its goal value in the state.  The
      state is looked up at every goal feature, so it must have them all. */
  function IsGoal(fs: ForwardStrips, state: State): (r: bool)
    requires fs.goal.Keys <= state.assignment.Keys
    ensures r <==> Holds(fs.goal, state.assignment)
  {
    forall prop :: prop in fs.goal ==> state.assignment[prop] == fs.goal[prop]
  }

  function StartNode(fs: ForwardStrips): (s: State)
    ensures s == fs.initialState
  {
    fs.initialState
  }

  /** possible: every precondition has the required value in the state.  The
      state is looked up at every precondition feature. */
  function Possible(act: Strips, stateAsst: Assignment): (r: bool)
    requires act.preconds.Keys <= stateAsst.Keys
    ensures r <==> Holds(act.preconds, stateAsst)
  {
    forall pre :: pre in act.preconds ==> stateAsst[pre] == act.preconds[pre]
  }

  /** effect: a copy of the state updated with the action's effects; the
      given assignment is a value and is not changed. */
  function Effect(act: Strips, stateAsst: Assignment): (s: State)
    ensures s.assignment.Keys == stateAsst.Keys + act.effects.Keys
    ensures Holds(act.effects, s.assignment)
    ensures forall f :: f in stateAsst && f !in act.effects ==> s.assignment[f] == stateAsst[f]
  {
    State(DictUnion(stateAsst, act.effects))
  }

  /** Doing the same action again changes nothing more. */
  lemma EffectIdempotent(act: Strips, stateAsst: Assignment)
    ensures Effect(act, Effect(act, stateAsst).assignment) == Effect(act, stateAsst)
  {
    var once := Effect(act, stateAsst).assignment;
    var twice := Effect(act, once).assignment;
    assert twice.Keys == once.Keys;
    assert forall f :: f in twice ==> twice[f] == once[f];
  }

  /** Every action of the domain can be tested in the state. */
  predicate Testable(fs: ForwardStrips, state: State)
  {
    forall act :: act in fs.probDomain.actions ==> act.preconds.Keys <= state.assignment.Keys
  }

  /** neighbors: one arc for each action possible in the state, to the state
      it leads to, with the action's cost.  The actions form a set, so the
      arcs are a set too. */
  function Neighbors(fs: ForwardStrips, state: State): (arcs: set<Arc<State>>)
    requires Testable(fs, state)
    ensures forall act :: act in fs.probDomain.actions && Possible(act, state.assignment)
                          ==> Arc(state, Effect(act, state.assignment), act.cost, act) in arcs
    ensures forall arc :: arc in arcs ==>
              && arc.fromNode == state
              && arc.action in fs.probDomain.actions
              && Possible(arc.action, state.assignment)
              && arc.toNode == Effect(arc.action, state.assignment)
              && arc.cost == arc.action.cost
  {
    set act | act in fs.probDomain.actions && Possible(act, state.assignment)
            :: Arc(state, Effect(act, state.assignment), act.cost, act)
  }

  /** The heuristic of a node is heur(state, goal). */
  function Heuristic(fs: ForwardStrips, state: State): int
  {
    fs.heur(state.assignment, fs.goal)
  }

  lemma DefaultHeuristicZero(problem: PlanningProblem, state: State)
    ensures Heuristic(NewForwardStrips(problem), state) == 0
  {
  }

  /** A neighbor's state satisfies the goal when the arc's action achieves
      the goal features the state did not already have. */
  lemma {:induction false} NeighborReachesGoal(fs: ForwardStrips, state: State, arc: Arc<State>)
    requires Testable(fs, state)
    requires arc in Neighbors(fs, state)
    requires forall f :: f in fs.goal ==>
               || (f in arc.action.effects && arc.action.effects[f] == fs.goal[f])
               || (f !in arc.action.effects && f in state.assignment && state.assignment[f] == fs.goal[f])
    ensures fs.goal.Keys <= arc.toNode.assignment.Keys && IsGoal(fs, arc.toNode)
  {
    var t := arc.toNode.assignment;
    forall f | f in fs.goal ensures f in t && t[f] == fs.goal[f] {
      if f in arc.action.effects {
        assert t[f] == arc.action.effects[f];
      }
    }
  }

  /** In the delivery domain the robot can go from the lab to the office in one step. */
  lemma MccLabReachesOffice()
    ensures Possible(MccLab, DeliveryStart)
    ensures Effect(MccLab, DeliveryStart).assignment["RLoc"] == Loc("off")
    ensures Holds(Problem0.goal, Effect(MccLab, DeliveryStart).assignment)
  {
    assert MccLab.preconds == map["RLoc" := Loc("lab")];
    assert DeliveryStart["RLoc"] == Loc("lab");
  }
}
