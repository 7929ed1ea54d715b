# COMP9814 assignment 1 core, modelled in Dafny

This project models the reasoning code of the course's assignment 1 and
proves properties of it. That code comes from the AIPython library of
*Artificial Intelligence: Foundations of Computational Agents*:

- **Recursive conditioning** (`probRC.py`): class `RC` answers a query
  P(var | obs) on a graphical model. There are two algorithms:
  - `rc0`: plain enumeration over the elimination order;
  - `rc`: enumeration plus a cache, forgetting of context variables no
    factor mentions, and early evaluation of fully assigned factors.

  Both are proved to compute the same reference sum. `rc0`'s result is
  proved independent of the elimination order. `query` returns the
  normalised weights, or an error when their sum is 0.
- **Utilities** (`utilities.py`): `dict_union` and the `argmaxe` /
  `argmax` / `argmaxd` family.
- **STRIPS planning** (`stripsProblem.py`, `stripsForwardPlanner.py`,
  `stripsRegressionPlanner.py`):
  - actions with preconditions and effects, the delivery robot domain, and
    the blocks-world generator;
  - the forward planner's search space: goal test, applicability, effect
    and neighbours;
  - the regression planner's search space: applicability, weakest
    precondition and neighbours. Regression is proved sound and complete
    with respect to forward application of the same action.
- **Markov decision processes** (`mdpProblem.py`, `mdpExamples.py`):
  - value iteration `vi`, as a loop proved against an iteration function;
  - the `party`, `tiny` and `grid` examples, with their transition and
    reward tables.
- **n-queens** (`cspExamplesQueens.py`): the pairwise "no take" test and
  the construction of the n-queens constraint problem.

One Dafny module models each source file:

| Dafny file | module | source |
|---|---|---|
| utilities.dfy | Utilities | ass1/utilities.py |
| set_products.dfy | SetProducts | products over finite sets, used by the inference model |
| prob_model.dfy | ProbModel | variables, factors, and the reference sums behind `rc0` and `rc` |
| prob_rc.dfy | ProbRC | ass1/aipython/probRC.py |
| strips_problem.dfy | StripsProblem | ass1/aipython/stripsProblem.py |
| strips_forward_planner.dfy | StripsForwardPlanner | ass1/aipython/stripsForwardPlanner.py |
| strips_regression_planner.dfy | StripsRegressionPlanner | ass1/aipython/stripsRegressionPlanner.py |
| mdp_problem.dfy | MdpProblem | ass1/aipython/mdpProblem.py |
| mdp_examples.dfy | MdpExamples | ass1/aipython/mdpExamples.py |
| csp_examples_queens.dfy | CspExamplesQueens | ass1/aipython/cspExamplesQueens.py |

How Python constructs are represented:

- Numbers are Dafny `real`s.
- Python dictionaries are Dafny `map`s, with two exceptions where the order
  of entries matters:
  - the successor dictionary returned by `P(s, a)` is a list of
    (successor, probability) pairs in insertion order;
  - `argmaxd` is given the dictionary's keys in iteration order.
- Python sets are `set`s.
- Graphical models, factors (`probFactors`), `Arc` and `Search_problem`
  (`searchProblem`), and `CSP` / `Constraint` (`cspProblem`) are not part
  of this model. Each is represented by a minimal datatype that holds
  what the modelled code uses.

## Model

A row whose third column starts with "definition:" names a member that
defines an operation. Its contract, if any, only describes the result. The
properties of that operation are stated by the members the row names.

| member | source | states |
|---|---|---|
| Utilities.DictUnion | ass1/utilities.py:43-51 | the result has the keys of both maps; a key of `d2` takes `d2`'s value, every other key keeps `d1`'s; both inputs are values and are not changed |
| Utilities.DictUnionExample | ass1/utilities.py:56 | `dict_union({1:4,2:5,3:4},{5:7,2:9}) == {1:4,2:9,3:4,5:7}` |
| Utilities.MaxValue | ass1/utilities.py:19-25 | the largest value of a nonempty list: at least every value and equal to one of them |
| Utilities.MaximalElementsLoop | ass1/utilities.py:19-25 | after the loop, `maxv` is −∞ for an empty input and otherwise the maximum value, and `maxvals` lists exactly the elements with that value, in input order |
| Utilities.MaximalElementsSound | ass1/utilities.py:21-25 | each element kept in `maxvals` comes from an input pair with the maximal value |
| Utilities.MaximalElementsNotEmpty | ass1/utilities.py:21-26 | the list the random choice picks from is nonempty when some element attains the maximum |
| Utilities.ArgMaxE | ass1/utilities.py:14-26 | `argmaxe` returns an element paired with the maximum value, which is ≥ every value; on an empty input it fails (None), as `random.choice([])` raises |
| Utilities.Enumerate | ass1/utilities.py:30 | definition: `enumerate(lst)` pairs each index with its entry |
| Utilities.ArgMax | ass1/utilities.py:28-30 | `argmax` returns an index of the list whose entry is ≥ every entry; None exactly for the empty list |
| Utilities.ArgMaxD | ass1/utilities.py:34-36 | `argmaxd` returns a key whose value is ≥ every value of the dictionary; None exactly for the empty dictionary |
| ProbModel.ProductZero | ass1/aipython/probRC.py:54-56 | a product is 0 exactly when one of its factors is 0 (the zero short-circuit loses nothing) |
| ProbModel.Rc0Sum | ass1/aipython/probRC.py:75-89 | definition: `rc0`'s recursion, branching on the last variable of the order and multiplying the factor values at the leaves; ProbRC.RC.Rc0 is proved to return it, and Rc0SumIsFreeSum relates it to the order-free sum |
| ProbModel.Rc0SumIsFreeSum | ass1/aipython/probRC.py:75-89 | `rc0`'s sum (branch on the last variable, product at the leaves) equals the order-free sum over all completions of the order's variables |
| ProbModel.Rc0SumOrderIndependent | ass1/aipython/probRC.py:75-89 | two elimination orders listing the same variables give the same `rc0` result |
| ProbModel.FreeSumAny | ass1/aipython/probRC.py:63-72 | the order-free sum may branch on any free variable first, so caching a branch total under (context, factor set) is sound |
| ProbModel.FreeSumAgree | ass1/aipython/probRC.py:46-50 | two contexts that agree on every variable the factors mention and the sum does not bind give the same sum |
| ProbModel.FreeSumFactorOut | ass1/aipython/probRC.py:51-58 | factors fully assigned by the context can be multiplied out of the sum |
| ProbModel.ProductIsSetProduct | ass1/aipython/probRC.py:81 | the product of a list of distinct factors' values is the product over their set |
| ProbModel.WeightAgree | ass1/aipython/probRC.py:54 | a factor's weight depends only on the context's values for its scope |
| ProbRC.CacheElt | ass1/aipython/probRC.py:122-135 | definition: the key holds the context and exactly the members of the factor list |
| ProbRC.CacheEltEquality | ass1/aipython/probRC.py:126-135 | two keys are equal iff their contexts are equal and their factor lists have the same members (order and repeats ignored) |
| ProbRC.InitialEntry | ass1/aipython/probRC.py:15 | the initial cache entry (empty context, no factors) ↦ 1 stands for the correct sum |
| ProbRC.ForgottenVars | ass1/aipython/probRC.py:46 | definition: exactly the context variables that occur in no factor's scope |
| ProbRC.Forget | ass1/aipython/probRC.py:49 | definition: the context restricted to the variables not forgotten, with their values |
| ProbRC.ForgetStep | ass1/aipython/probRC.py:46-50 | forgetting keeps the factors and the order, keeps the order equal to the free variables, shrinks the context when something is dropped, and keeps the sum |
| ProbRC.ToEval | ass1/aipython/probRC.py:51 | exactly the factors whose whole scope the context assigns |
| ProbRC.Remaining | ass1/aipython/probRC.py:58 | exactly the factors not evaluated, shorter when something was evaluated |
| ProbRC.Prod | ass1/aipython/probRC.py:115-119 | `prod` multiplies left to right from 1: the product of the list (1 when empty), which is 0 iff some entry is 0 |
| ProbRC.EvalSets | ass1/aipython/probRC.py:51-58 | the evaluated and remaining factors partition the factors, and the variables left to sum are unchanged |
| ProbRC.FactorOutRest | ass1/aipython/probRC.py:54-58 | the sum is the evaluated product times the sum for the remaining factors, and 0 when the product is 0 |
| ProbRC.ProductOfValues | ass1/aipython/probRC.py:54 | the product of the evaluated factors' values, as a product over their set |
| ProbRC.BranchOrderNonEmpty | ass1/aipython/probRC.py:63-64 | when the cache misses, nothing is forgotten and nothing is evaluated, the order is nonempty (the source's assertion holds) |
| ProbRC.RC.constructor | ass1/aipython/probRC.py:13-15 | the cache starts as {(empty context, no factors) ↦ 1} and is valid |
| ProbRC.RC.Rc0 | ass1/aipython/probRC.py:75-89 | the recursion with its loop over the last variable's domain computes the reference `rc0` sum |
| ProbRC.RC.Rc | ass1/aipython/probRC.py:33-72 | `rc` (cache lookup, forgetting, evaluation, branching) returns the order-free sum for its context, factors and order, keeps every cache entry correct and never changes an existing entry |
| ProbRC.RC.Evaluate | ass1/aipython/probRC.py:51-58 | the evaluation step returns 0 without recursing when the product is 0, and otherwise the product times `rc` on the remaining factors: in both cases the sum |
| ProbRC.RC.BranchOn | ass1/aipython/probRC.py:63-72 | the branching loop sums `rc` over the last variable's domain, stores the total under the key of (context, factors), and returns the sum |
| ProbRC.BranchContext | ass1/aipython/probRC.py:66-69 | each recursive call of the branching loop has context `dict_union({var:val}, context)` and meets `rc`'s requirement with the order's last element removed |
| ProbRC.BranchStep | ass1/aipython/probRC.py:68-69 | each loop step adds the next value's sum to the running total |
| ProbRC.DefaultOrder | ass1/aipython/probRC.py:26-27 | the default order is exactly the model's variables that are neither observed nor the query variable, in model order |
| ProbRC.ObservedDist | ass1/aipython/probRC.py:23-24 | for an observed query variable, 1 for the observed value and 0 for every other domain value |
| ProbRC.ZipToMapAt | ass1/aipython/probRC.py:30 | in `{val: pr for val, pr in zip(...)}` each value gets the weight paired with its last occurrence |
| ProbRC.Normalise | ass1/aipython/probRC.py:29-30 | dividing by the sum fails exactly when the domain is nonempty and the sum is 0; otherwise the result is the dictionary over the domain |
| ProbRC.NormaliseAt | ass1/aipython/probRC.py:29-30 | a normalised weight is the unnormalised weight divided by the sum |
| ProbRC.NormaliseSumsToOne | ass1/aipython/probRC.py:28-30 | with a nonzero sum over a domain without repeats, the normalised weights sum to 1 |
| ProbRC.UnnormAt | ass1/aipython/probRC.py:28 | the i-th unnormalised weight is the `rc0` sum with the query variable set to its i-th value |
| ProbRC.QueryContext | ass1/aipython/probRC.py:28 | every call of `rc` made by `query` meets `rc`'s requirement |
| ProbRC.RC.Query | ass1/aipython/probRC.py:18-30 | observed variable: the 0/1 distribution; otherwise the normalisation of the `rc0` sums for each value of the variable, using the given or the default order |
| StripsProblem.NewStrips | ass1/aipython/stripsProblem.py:11-26 | definition: an action stores its name, preconditions, effects and cost unchanged |
| StripsProblem.NewStripsDefaultCost | ass1/aipython/stripsProblem.py:12 | the cost defaults to 1 |
| StripsProblem.OnInjective | ass1/aipython/stripsProblem.py:88-90 | distinct blocks have distinct `on` features |
| StripsProblem.ClearInjective | ass1/aipython/stripsProblem.py:91-93 | distinct names have distinct `clear` features |
| StripsProblem.Move | ass1/aipython/stripsProblem.py:85-87 | definition: the action name `'move_'+x+'_from_'+y+'_to_'+z` |
| StripsProblem.On | ass1/aipython/stripsProblem.py:88-90 | definition: the feature `x+'_is_on'`; OnInjective and OnNotClear are its properties |
| StripsProblem.Clear | ass1/aipython/stripsProblem.py:91-93 | definition: the feature `'clear_'+x`; ClearInjective and OnNotClear are its properties |
| StripsProblem.MoveBlock | ass1/aipython/stripsProblem.py:96-97 | definition: `move(x,y,z)` with preconditions {on(x): y, clear(x): True, clear(z): True} and effects {on(x): z, clear(y): True, clear(z): False}, cost 1; BlocksWorldValuesInDomain shows these fit `feats_vals` |
| StripsProblem.MoveToTable | ass1/aipython/stripsProblem.py:102-103 | definition: `move(x,y,'table')` with preconditions {on(x): y, clear(x): True} and effects {on(x): 'table', clear(y): True}, cost 1 |
| StripsProblem.OnNotClear | ass1/aipython/stripsProblem.py:88-93 | for names without `_`, an `on` feature is never a `clear` feature |
| StripsProblem.BlockMoves | ass1/aipython/stripsProblem.py:96-101 | definition: the block-to-block moves are exactly `move(x,y,z)` for pairwise distinct x, y, z, where x and z are blocks and y is a block or the table |
| StripsProblem.TableMoves | ass1/aipython/stripsProblem.py:102-106 | definition: the moves to the table are exactly those for ordered pairs of distinct blocks |
| StripsProblem.OnDomains | ass1/aipython/stripsProblem.py:107 | definition: `on(x)` ranges over the blocks and the table other than x |
| StripsProblem.ClearDomains | ass1/aipython/stripsProblem.py:108 | definition: every `clear` feature ranges over the truth values |
| StripsProblem.CreateBlocksWorld | ass1/aipython/stripsProblem.py:94-109 | the blocks default to a, b, c and d; the actions are the two move families; the features are the `on` features of the blocks and the `clear` features of the blocks and the table, with their domains (on a name clash the `clear` entry wins, as the update does) |
| StripsProblem.OnDomain | ass1/aipython/stripsProblem.py:107-108 | for names without `_` the `on` domains survive the `clear` update |
| StripsProblem.BlocksWorldFeaturesCovered | ass1/aipython/stripsProblem.py:96-108 | every feature a generated action mentions is a key of `feats_vals` |
| StripsProblem.BlocksWorldValuesInDomain | ass1/aipython/stripsProblem.py:96-108 | for block names without `_` and other than "table", every value a generated action requires or sets is in its feature's domain |
| StripsForwardPlanner.StateEquality | ass1/aipython/stripsForwardPlanner.py:22-23 | two states are equal iff their assignments are |
| StripsForwardPlanner.Zero | ass1/aipython/stripsForwardPlanner.py:27-29 | definition: `zero` always returns 0 |
| StripsForwardPlanner.NewForwardStrips | ass1/aipython/stripsForwardPlanner.py:36-45 | definition: the search space holds the problem's domain, its initial state as a `State`, the goal and the heuristic |
| StripsForwardPlanner.IsGoal | ass1/aipython/stripsForwardPlanner.py:47-52 | a state is a goal iff every goal feature has its goal value in it |
| StripsForwardPlanner.StartNode | ass1/aipython/stripsForwardPlanner.py:54-56 | definition: the start node is the initial state |
| StripsForwardPlanner.Possible | ass1/aipython/stripsForwardPlanner.py:64-68 | an action is possible iff every precondition has exactly its value in the state |
| StripsForwardPlanner.Effect | ass1/aipython/stripsForwardPlanner.py:70-75 | the new state has the old keys and the effect keys; every effect holds; every other feature keeps its old value; the input is not changed |
| StripsForwardPlanner.EffectIdempotent | ass1/aipython/stripsForwardPlanner.py:73-74 | doing the effect twice gives the same state as doing it once |
| StripsForwardPlanner.Neighbors | ass1/aipython/stripsForwardPlanner.py:58-62 | one arc for each possible action, from the state to the action's effect with the action's cost, and no arc for an impossible action |
| StripsForwardPlanner.Heuristic | ass1/aipython/stripsForwardPlanner.py:77-82 | definition: `heur(state.assignment, goal)`; DefaultHeuristicZero gives its value for the default heuristic |
| StripsForwardPlanner.DefaultHeuristicZero | ass1/aipython/stripsForwardPlanner.py:77-82 | with the default heuristic every node is estimated at 0 |
| StripsForwardPlanner.NeighborReachesGoal | ass1/aipython/stripsForwardPlanner.py:47-75 | a neighbour is a goal when each goal feature is set by the action or already holds and is left alone |
| StripsForwardPlanner.MccLabReachesOffice | ass1/aipython/stripsProblem.py:63-74 | in the delivery domain, `mcc_lab` is possible from the initial state and reaches problem 0's goal |
| StripsRegressionPlanner.SubgoalEquality | ass1/aipython/stripsRegressionPlanner.py:21-22 | two subgoals are equal iff their assignments are |
| StripsRegressionPlanner.NewRegressionStrips | ass1/aipython/stripsRegressionPlanner.py:34-43 | definition: the search space holds the domain, the goal as a `Subgoal`, the initial state and the heuristic |
| StripsRegressionPlanner.IsGoal | ass1/aipython/stripsRegressionPlanner.py:45-49 | a subgoal is reached iff each of its features has that value in the initial state |
| StripsRegressionPlanner.StartNode | ass1/aipython/stripsRegressionPlanner.py:51-53 | definition: the start node is the top-level goal |
| StripsRegressionPlanner.Possible | ass1/aipython/stripsRegressionPlanner.py:62-75 | definition: the action gives some goal feature its goal value, gives no goal feature another value, and its preconditions agree with the goal on the goal features it leaves alone; RegressionSound, RegressionComplete and PossibleNeedsAchievement relate it to forward application |
| StripsRegressionPlanner.Regressed | ass1/aipython/stripsRegressionPlanner.py:77-80 | the weakest precondition `preconds | (goal − effects)`: the keys of both, the goal's value on goal features the action leaves alone, the precondition's value elsewhere |
| StripsRegressionPlanner.WeakestPrecond | ass1/aipython/stripsRegressionPlanner.py:77-85 | the copy-and-update loop computes exactly that weakest precondition |
| StripsRegressionPlanner.Neighbors | ass1/aipython/stripsRegressionPlanner.py:55-60 | one arc for each action possible for the subgoal, to its weakest precondition with the action's cost, and no others |
| StripsRegressionPlanner.Heuristic | ass1/aipython/stripsRegressionPlanner.py:87-91 | definition: `heur(initial_state, subgoal.assignment)`; DefaultHeuristicZero gives its value for the default heuristic |
| StripsRegressionPlanner.DefaultHeuristicZero | ass1/aipython/stripsRegressionPlanner.py:87-91 | with the default heuristic every node is estimated at 0 |
| StripsRegressionPlanner.RegressionSound | ass1/aipython/stripsRegressionPlanner.py:62-85 | if the action is possible for the goal and a state satisfies the weakest precondition, the action is possible forward in it and its effect satisfies the goal |
| StripsRegressionPlanner.RegressedWeakest | ass1/aipython/stripsRegressionPlanner.py:77-85 | any state from which the action can be done and reaches the goal satisfies the weakest precondition |
| StripsRegressionPlanner.RegressionComplete | ass1/aipython/stripsRegressionPlanner.py:62-75 | an action that can be done forward, reaches the goal and sets some goal feature passes the regression test |
| StripsRegressionPlanner.PossibleNeedsAchievement | ass1/aipython/stripsRegressionPlanner.py:69-70 | an action setting no goal feature is not possible |
| StripsRegressionPlanner.DeliverCoffeeRegresses | ass1/aipython/stripsProblem.py:66-78 | delivering coffee is possible for problem 1's goal; it regresses to "in the office holding coffee" |
| MdpProblem.ExpectZero | ass1/aipython/mdpProblem.py:40-41 | the expected value of a value function that is 0 on every successor is 0 |
| MdpProblem.QBackup | ass1/aipython/mdpProblem.py:40-43 | the Q-function is keyed by exactly the states, and each row by exactly the actions |
| MdpProblem.MaxOver | ass1/aipython/mdpProblem.py:44 | `max(q[s][a] for a in actions)`: at least every entry and equal to one |
| MdpProblem.ValueOf | ass1/aipython/mdpProblem.py:44-45 | `v` is keyed by the states, and `v[s]` is ≥ every `q[s][a]` and equal to some `q[s][a]` |
| MdpProblem.Start | ass1/aipython/mdpProblem.py:38 | definition: without `v0` the start value is 0 for every state; otherwise it is `v0` |
| MdpProblem.Iter | ass1/aipython/mdpProblem.py:39-45 | zero iterations leave the start value; after any iteration the value is keyed by the states |
| MdpProblem.IterNext | ass1/aipython/mdpProblem.py:39-45 | each iteration is a backup followed by a maximum |
| MdpProblem.IterIsMax | ass1/aipython/mdpProblem.py:44-45 | after k > 0 iterations, `v[s]` is the largest Q-value of the last backup at s |
| MdpProblem.Vi | ass1/aipython/mdpProblem.py:33-48 | for n > 0, `q` is the n-th backup, `v` the n-th value, and `pi` picks in each state an action with `q[s][pi[s]] == v[s]`; all are keyed by exactly the states, and `q[s]` by exactly the actions |
| MdpProblem.Policy | ass1/aipython/mdpProblem.py:46-47 | `pi = {s: argmaxd(q[s])}` picks, in each state, an action whose Q-value is `v[s]` |
| MdpProblem.PolicyValue | ass1/aipython/mdpProblem.py:46-47 | an action of largest Q-value in s attains `v[s]` |
| MdpProblem.FirstBackupIsReward | ass1/aipython/mdpProblem.py:38-43 | with no `v0`, the first backup is `R(s, a)` |
| MdpExamples.LookupAddTo | ass1/aipython/mdpExamples.py:109-112 | `res[s1] += p` (or `res[s1] = p` for a new key) adds p to the entry of s1 and changes no other entry |
| MdpExamples.MassAddTo | ass1/aipython/mdpExamples.py:109-112 | that update adds p to the total mass |
| MdpExamples.LookupPut | ass1/aipython/mdpExamples.py:104 | a dictionary-literal entry overwrites its key and leaves the others |
| MdpExamples.RectMember | ass1/aipython/mdpExamples.py:36 | `[(x,y) for x in range(nx) for y in range(ny)]` holds exactly the cells with 0 ≤ x < nx and 0 ≤ y < ny |
| MdpExamples.PartyR | ass1/aipython/mdpExamples.py:20-23 | definition: the reward table, 7 and 10 for relaxing and partying when healthy, 0 and 2 when sick |
| MdpExamples.PartyP | ass1/aipython/mdpExamples.py:25-30 | definition: {healthy: p, sick: 1 − p} with p from the table of lines 27-29; PartyDistributions proves it a distribution |
| MdpExamples.PartyMdp | ass1/aipython/mdpExamples.py:15-18 | the party process has the given discount (0.9 by default) |
| MdpExamples.PartyDistributions | ass1/aipython/mdpExamples.py:25-30 | `party.P(s,a)` = {healthy: p, sick: 1−p} has mass 1 with both probabilities in [0, 1]; every successor is a state |
| MdpExamples.TinyMdp | ass1/aipython/mdpExamples.py:34-37 | the tiny process has the given discount |
| MdpExamples.TinyP | ass1/aipython/mdpExamples.py:39-58 | definition: the successor dictionaries of each action, in the insertion order of the dictionary literals; TinyMass and TinyClosed are its properties |
| MdpExamples.TinyR | ass1/aipython/mdpExamples.py:60-71 | definition: the reward lists indexed by x and y, defined where Python's indexing is; TinyStep shows the states are inside those bounds |
| MdpExamples.TinyMass | ass1/aipython/mdpExamples.py:39-58 | each `tiny.P` distribution has mass 1 |
| MdpExamples.TinyStep | ass1/aipython/mdpExamples.py:39-71 | from a cell with 0 ≤ x ≤ 1 and 0 ≤ y ≤ 2 the reward tables are indexed inside their bounds, and every successor is such a cell |
| MdpExamples.TinyClosed | ass1/aipython/mdpExamples.py:36-71 | every successor given by `tiny.P` lies in `tiny.states`, and `R` is defined on all of them |
| MdpExamples.NewGrid | ass1/aipython/mdpExamples.py:76 | definition: the grid's defaults are discount 0.9 and a 10 × 10 grid |
| MdpExamples.IntendedNext | ass1/aipython/mdpExamples.py:85-97 | definition: one step in the direction, or staying put at the wall; IntendedNextOnGrid is its property |
| MdpExamples.GridP | ass1/aipython/mdpExamples.py:99-113 | definition: the corners from a fling state, otherwise the folded moves; GridPLoop is the loop proved equal to it, and GridPMoves and GridPFling its properties |
| MdpExamples.IntendedNextOnGrid | ass1/aipython/mdpExamples.py:85-97 | `intended_next` stays on the grid and changes at most one coordinate by at most 1; it stays put exactly at the wall it heads into |
| MdpExamples.GridPLoop | ass1/aipython/mdpExamples.py:99-113 | `grid.P`: the four corners from a fling state; otherwise the loop over the actions adds 0.7 for the chosen action and 0.1 for each other one to the cell it leads to |
| MdpExamples.MovesLookup | ass1/aipython/mdpExamples.py:105-113 | after the loop, a cell's probability is the sum of the chances of the actions that lead there |
| MdpExamples.GridPMoves | ass1/aipython/mdpExamples.py:105-113 | away from the fling states, each cell gets the chances of the directions leading to it, merged in the corners, and the total is 1 |
| MdpExamples.GridPFling | ass1/aipython/mdpExamples.py:103-104 | from a fling state of a grid at least 2 × 2, each corner has probability 0.25, nothing else is reached, and the total is 1 |
| MdpExamples.GridRWalls | ass1/aipython/mdpExamples.py:115-129 | outside the rewarding states, R is −0.1 per wall touched and 0.6 more for heading into one; in the interior it is 0 |
| MdpExamples.GridRRewarding | ass1/aipython/mdpExamples.py:116-117 | a rewarding state pays its table value whatever the action |
| MdpExamples.GridR | ass1/aipython/mdpExamples.py:115-129 | definition: the rewarding state's value, otherwise the sum of the four wall penalties; GridRWalls and GridRRewarding are its properties |
| MdpExamples.GridMdp | ass1/aipython/mdpExamples.py:76-83 | the corrected grid process: its states are `range(dx)` × `range(dy)`, not line 80's `range(dy)` × `range(dy)` (second Findings row), with the four actions and the given discount |
| MdpExamples.GridMdpAsWritten | ass1/aipython/mdpExamples.py:76-83 | the grid process as written: its states are line 80's `range(dy)` × `range(dy)`, with the four actions; GridStatesAsWrittenNotClosed shows its successors can leave those states |
| MdpExamples.GridClosed | ass1/aipython/mdpExamples.py:85-113 | over the dx × dy states, every successor of every state and action is a state |
| MdpExamples.GridStatesAsWrittenNotClosed | ass1/aipython/mdpExamples.py:80 | with the states as written, a 3 × 2 grid lists (1, 0), not (2, 0) where moving right from (1, 0) leads, so the successors leave the states |
| MdpExamples.GridStatesSquare | ass1/aipython/mdpExamples.py:80 | for square grids the states as written are all the cells |
| CspExamplesQueens.NoTakeAsWritten | ass1/aipython/cspExamplesQueens.py:17-19 | definition: `ci != cj and abs(ri-ci) != abs(rj-cj)`, as written; NoTakeAsWrittenMeaning says what it tests |
| CspExamplesQueens.NoTakeAsWrittenSameColumn | ass1/aipython/cspExamplesQueens.py:15-20 | as written, the test is false whenever ci == cj |
| CspExamplesQueens.NoTakeAsWrittenMeaning | ass1/aipython/cspExamplesQueens.py:19 | as written, the test fails exactly when ci == cj, or ri − rj == ci − cj, or ri + rj == ci + cj |
| CspExamplesQueens.NoTakeAsWrittenSymmetric | ass1/aipython/cspExamplesQueens.py:15-20 | `queens(i,j)(ci,cj) == queens(j,i)(cj,ci)` for the test as written |
| CspExamplesQueens.NoTakeAsWrittenWrong | ass1/aipython/cspExamplesQueens.py:19 | as written, queens at (0, 2) and (1, 1) share a diagonal but pass, and queens at (0, 2) and (3, 1) are safe but fail |
| CspExamplesQueens.NoTake | ass1/aipython/cspExamplesQueens.py:15-20 | the corrected test holds exactly when the two queens share neither a column nor a diagonal |
| CspExamplesQueens.NoTakeSameColumn | ass1/aipython/cspExamplesQueens.py:15-20 | the corrected test is false whenever ci == cj |
| CspExamplesQueens.NoTakeSymmetric | ass1/aipython/cspExamplesQueens.py:15-20 | the corrected test is symmetric in the two queens |
| CspExamplesQueens.VarName | ass1/aipython/cspExamplesQueens.py:26 | `'R'+str(i)`: at least two characters, starting with R |
| CspExamplesQueens.VarNameInjective | ass1/aipython/cspExamplesQueens.py:26 | different rows get different variable names `'R'+str(i)` |
| CspExamplesQueens.PairsMember | ass1/aipython/cspExamplesQueens.py:27 | the row pairs are exactly the ordered pairs of distinct rows in range(n) |
| CspExamplesQueens.PairsLength | ass1/aipython/cspExamplesQueens.py:27 | there are n·(n−1) of them |
| CspExamplesQueens.NQueensWith | ass1/aipython/cspExamplesQueens.py:22-27 | definition: `n_queens(n)` with the pairwise test as a parameter; NQueensVariables and NQueensConstraints give its contents |
| CspExamplesQueens.NQueens | ass1/aipython/cspExamplesQueens.py:22-27 | definition: `n_queens` with the corrected test; NQueensSolutions gives its solutions |
| CspExamplesQueens.NQueensAsWritten | ass1/aipython/cspExamplesQueens.py:22-27 | definition: `n_queens` with the test as written at line 19 (first Findings row) |
| CspExamplesQueens.NQueensVariables | ass1/aipython/cspExamplesQueens.py:24-26 | the variables are R0 … R(n−1), each with the domain [0, …, n−1] |
| CspExamplesQueens.NQueensConstraints | ass1/aipython/cspExamplesQueens.py:27 | one constraint per ordered pair of distinct rows, n·(n−1) in all, each with scope [Ri, Rj] and test `queens(i, j)` |
| CspExamplesQueens.NQueensSolutions | ass1/aipython/cspExamplesQueens.py:15-27 | a complete assignment satisfies every constraint of the corrected n-queens problem iff no two queens attack each other |

## Left out

- The component-splitting step of `rc` and `connected_components`
  (probRC.py:59-62, 91-112) are left out. As written, `rc` never returns
  from this step:
  - `component_variables` starts with the seed's variables, so the loop
    finds no new variable and stops after the seed;
  - with two or more factors, the test at line 108 (inverted) then returns
    `[(factors, elim_order)]`, and line 62 calls `rc` again on the same
    context, factors and order, which misses the cache again: the
    recursion never ends;
  - with one factor, line 112 recurses on `other_factors`, an empty set,
    and `factors[0]` at line 95 cannot index a set;
  - line 105 would push whole lists onto `to_check`.

  So `rc` as written never reaches the branching step at lines 63-72. The
  modelled `rc` goes cache → forget → evaluate → branch, which is the code
  without line 59.
- Tracing (`display`, `max_display_level`) is left out. It has no effect
  on results.
- Randomness is left out:
  - `MDP.avi`, `flip`;
  - the random tie-break of `argmaxe`, which is modelled as an unspecified
    choice among the maximal elements (`dict`/`set` iteration order is
    unspecified too);
  - `party`'s `states` and `actions` are Python sets, modelled as lists in
    some fixed order.
- Floating point is not modelled; the model uses exact reals. "Sums to 1"
  holds over the reals, not bit for bit in Python floats.
- Hash caching in `State`, `Subgoal` and `CacheElt` is not modelled; only
  equality is.
- Module-level example instances and commented demo calls (probRC.py
  137-160, stripsForwardPlanner.py 84-92, stripsRegressionPlanner.py
  93-98, cspExamplesQueens.py 29-31) need searchers and graphical models
  that are not part of this model. The delivery domain and its problems
  are kept as fixtures.
- The broken self-test at utilities.py:55 is left out. It passes
  `enumerate(...)` to `argmax`, which enumerates again.
- ProbRC.RC.Rc: requires an order that lists, without repeats, exactly
  the variables the factors mention and the context does not assign, and
  factors without repeats. The docstring asks for the "variables in
  factors that are not in context". The two no-repeats conditions are
  this model's own addition. Without the first requirement, the initial
  cache entry (empty context, no factors) ↦ 1 can be reached with
  variables still to sum.
- ProbRC.RC.Query requires the model to be well formed, which the
  docstring of `query` does not ask for: every model variable occurs in
  some factor's scope, no variable is listed twice, and no factor is
  listed twice. The default order is built from the model's variables,
  and `rc` needs an order that lists, once each, exactly the variables the
  factors mention. The cache key holds the factors as a set, so the cache
  could not tell a repeated factor from a single one.
- ProbModel.GetValue: a factor is a table from the scope's values to a
  weight, and an entry the table does not list weighs 0. How
  `probFactors` computes values is not part of this model.
- StripsForwardPlanner.IsGoal and StripsForwardPlanner.Possible require
  the state to have every goal or precondition feature. In Python, `all`
  stops at the first failing comparison, in the dictionary's key order.
  So Python raises `KeyError` only when it reaches a missing feature
  before a failing one, and otherwise returns False. Dafny maps have no
  key order, so the model requires every feature to be present.
- StripsRegressionPlanner.IsGoal has the same requirement for the initial
  state, for the same reason.
- ProbModel.Variable is a value, a name with its domain. Two variables
  with the same name and domain are one context key in the model. The
  Python variable class is not part of this model. If its objects compare
  by identity, Python would keep two such variables apart.
- StripsProblem.Strips is a value: two actions with equal fields are one
  element of a `set<Strips>`. In Python, `stmap` is a set of objects
  hashed by identity, so it would keep both. `create_blocks_world` never
  builds two such actions. Block names without `_` give each (x, y, z) its
  own action name, so both sets have the same actions.
- StripsForwardPlanner.Neighbors and StripsRegressionPlanner.Neighbors
  return a set of arcs: the actions form a set, so the list's order is
  unspecified.
- StripsForwardPlanner.Heuristic and StripsRegressionPlanner.Heuristic:
  heuristics return integers.
- MdpProblem.Vi requires every successor of the first backup to have a
  start value, and, for n > 1, every successor to be a state. Otherwise
  Python raises `KeyError`. `P` and `R` are given as partial functions
  defined on the states and actions.
- MdpProblem.Vi requires a nonempty list of actions. With a state and no
  actions, `max` at mdpProblem.py:44 raises `ValueError`, and the model
  does not represent that error. With no states and no actions Python
  returns empty dictionaries; the model excludes that case too.
- MdpProblem.Vi: `pi[s]` is some action of maximal Q-value. Which one, in
  a tie, is not modelled.
- MdpExamples.TinyR is partial, like Python's list indexing: it is
  defined where the index exists, negative indices counting from the end.

## Findings

| source | as written | input that shows it | evidently intended | confidence | as-written member | corrected member |
|---|---|---|---|---|---|---|
| ass1/aipython/cspExamplesQueens.py:19 | `abs(ri-ci) != abs(rj-cj)` mixes rows and columns: besides the column test, it rules out ri − rj == ci − cj and ri + rj == ci + cj | rows 0 and 1, columns 2 and 1 share a diagonal but pass; rows 0 and 3, columns 2 and 1 are safe but fail | `abs(ri-rj) != abs(ci-cj)` (no shared diagonal) | not executed | CspExamplesQueens.NoTakeAsWrittenWrong | CspExamplesQueens.NoTake |
| ass1/aipython/mdpExamples.py:80 | the states are `range(dy)` × `range(dy)` | dx = 3, dy = 2: from (1, 0), moving right leads to (2, 0), which is not a state, so the first iteration of `vi` without `v0` looks up `v[(2, 0)]` and fails | `range(dx)` × `range(dy)` | not executed | MdpExamples.GridStatesAsWrittenNotClosed | MdpExamples.GridClosed |
