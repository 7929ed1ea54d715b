// Three example decision processes: a two-state party process, a 2 x 3
// grid with four actions, and a dx x dy grid where the agent moves in its
// intended direction with probability 0.7 and in each other direction with
// 0.1, is flung to a corner from two special states, and is penalised for
// bumping into walls.  Successor dictionaries are lists of (state,
// probability) pairs in insertion order.
module MdpExamples {
  import opened MdpProblem

  type Cell = (int, int)

  // ---------------------------------------------------------------------------
  // Dictionaries as association lists

  /** The probability of `k`: its first entry, or 0 when it has none. */
  function Lookup(d: seq<(Cell, real)>, k: Cell): real
  {
    if d == [] then 0.0 else if d[0].0 == k then d[0].1 else Lookup(d[1..], k)
  }

  function Keys(d: seq<(Cell, real)>): set<Cell>
  {
    set i | 0 <= i < |d| :: d[i].0
  }

  /** d[k] += p when k is present, else d[k] = p (appended last). */
  function AddTo(d: seq<(Cell, real)>, k: Cell, p: real): seq<(Cell, real)>
  {
    if d == [] then [(k, p)]
    else if d[0].0 == k then [(k, d[0].1 + p)] + d[1..]
    else [d[0]] + AddTo(d[1..], k, p)
  }

  /** d[k] = p: overwrite k's entry when present, else append it. */
  function Put(d: seq<(Cell, real)>, k: Cell, p: real): seq<(Cell, real)>
  {
    if d == [] then [(k, p)]
    else if d[0].0 == k then [(k, p)] + d[1..]
    else [d[0]] + Put(d[1..], k, p)
  }

  lemma {:induction false} LookupAddTo(d: seq<(Cell, real)>, k: Cell, p: real, t: Cell)
    ensures Lookup(AddTo(d, k, p), t) == Lookup(d, t) + (if t == k then p else 0.0)
  {
    if d != [] && d[0].0 != k {
      LookupAddTo(d[1..], k, p, t);
      assert AddTo(d, k, p)[1..] == AddTo(d[1..], k, p);
    } else if d != [] {
      assert AddTo(d, k, p)[1..] == d[1..];
    }
  }

  lemma {:induction false} MassAddTo(d: seq<(Cell, real)>, k: Cell, p: real)
    ensures Mass(AddTo(d, k, p)) == Mass(d) + p
  {
    if d != [] && d[0].0 != k {
      MassAddTo(d[1..], k, p);
      assert AddTo(d, k, p)[1..] == AddTo(d[1..], k, p);
    } else if d != [] {
      assert AddTo(d, k, p)[1..] == d[1..];
    } else {
      assert Mass([(k, p)]) == p + Mass([(k, p)][1..]);
    }
  }

  lemma {:induction false} LookupPut(d: seq<(Cell, real)>, k: Cell, p: real, t: Cell)
    ensures Lookup(Put(d, k, p), t) == if t == k then p else Lookup(d, t)
  {
    if d != [] && d[0].0 != k {
      LookupPut(d[1..], k, p, t);
      assert Put(d, k, p)[1..] == Put(d[1..], k, p);
    } else if d != [] {
      assert Put(d, k, p)[1..] == d[1..];
    }
  }

  /** Putting a new key appends it, adding its probability to the mass. */
  lemma {:induction false} MassPutNew(d: seq<(Cell, real)>, k: Cell, p: real)
    requires k !in Keys(d)
    ensures Mass(Put(d, k, p)) == Mass(d) + p
    ensures Keys(Put(d, k, p)) == Keys(d) + {k}
  {
    if d != [] {
      assert d[0].0 in Keys(d);
      assert Keys(d[1..]) <= Keys(d) by {
        forall x | x in Keys(d[1..]) ensures x in Keys(d) {
          var i :| 0 <= i < |d[1..]| && d[1..][i].0 == x;
          assert d[i + 1].0 == x;
        }
      }
      MassPutNew(d[1..], k, p);
      assert Put(d, k, p) == [d[0]] + Put(d[1..], k, p);
      assert Put(d, k, p)[1..] == Put(d[1..], k, p);
      KeysCons(d);
      KeysCons(Put(d, k, p));
    } else {
      assert Mass([(k, p)]) == p + Mass([(k, p)][1..]);
      assert Keys([(k, p)]) == {k};
    }
  }

  lemma KeysCons(d: seq<(Cell, real)>)
    requires d != []
    ensures Keys(d) == {d[0].0} + Keys(d[1..])
  {
    forall x | x in Keys(d) ensures x in {d[0].0} + Keys(d[1..]) {
      var i :| 0 <= i < |d| && d[i].0 == x;
      if i > 0 {
        assert d[1..][i - 1].0 == x;
      }
    }
    forall x | x in Keys(d[1..]) ensures x in Keys(d) {
      var i :| 0 <= i < |d[1..]| && d[1..][i].0 == x;
      assert d[i + 1].0 == x;
    }
  }

  /** [(x, y) for x in range(nx) for y in range(ny)]. */
  function Rect(nx: int, ny: int): seq<Cell>
    decreases nx
  {
    if nx <= 0 then [] else Rect(nx - 1, ny) + seq(if ny <= 0 then 0 else ny, j => (nx - 1, j))
  }

  lemma {:induction false} RectMember(nx: int, ny: int, c: Cell)
    ensures c in Rect(nx, ny) <==> 0 <= c.0 < nx && 0 <= c.1 < ny
    decreases nx
  {
    if nx > 0 {
      RectMember(nx - 1, ny, c);
      var row := seq(if ny <= 0 then 0 else ny, j => (nx - 1, j));
      assert c in Rect(nx, ny) <==> c in Rect(nx - 1, ny) || c in row;
      if c.0 == nx - 1 && 0 <= c.1 < ny {
        assert row[c.1] == c;
      }
    }
  }

  // ---------------------------------------------------------------------------
  // party

  datatype Health = Healthy | Sick

  datatype PartyAction = Relax | Party

  function PartyR(s: Health, a: PartyAction): real
  {
    match s
    case Healthy => (match a case Relax => 7.0 case Party => 10.0)
    case Sick => (match a case Relax => 0.0 case Party => 2.0)
  }

  /** P(healthy | s, a). */
  function PHealthy(s: Health, a: PartyAction): real
  {
    match s
    case Healthy => (match a case Relax => 0.95 case Party => 0.7)
    case Sick => (match a case Relax => 0.5 case Party => 0.1)
  }

  function PartyP(s: Health, a: PartyAction): seq<(Health, real)>
  {
    [(Healthy, PHealthy(s, a)), (Sick, 1.0 - PHealthy(s, a))]
  }

  function PartyMdp(discount: real := 0.9): (mdp: Mdp<Health, PartyAction>)
    ensures mdp.discount == discount
  {
    Mdp([Healthy, Sick], [Relax, Party], discount, PartyP, PartyR)
  }

  /** Each party distribution is a probability distribution over both states. */
  lemma PartyDistributions(discount: real, s: Health, a: PartyAction)
    ensures Mass(PartyP(s, a)) == 1.0
    ensures forall i :: 0 <= i < |PartyP(s, a)| ==> 0.0 <= PartyP(s, a)[i].1 <= 1.0
    ensures SuccessorsIn(PartyMdp(discount), StateSet(PartyMdp(discount)))
  {
    var d := PartyP(s, a);
    assert Mass(d) == d[0].1 + (d[1].1 + Mass(d[2..]));
  }

  // ---------------------------------------------------------------------------
  // tiny

  datatype TinyAction = Right | UpC | Left | UpR

  function TinyStates(): seq<Cell>
  {
    Rect(2, 3)
  }

  /** xs[i] with Python's reading of a negative index as counting from the end. */
  function PyAt<T>(xs: seq<T>, i: int): T
    requires -|xs| <= i < |xs|
  {
    if i >= 0 then xs[i] else xs[|xs| + i]
  }

  function TinyP(s: Cell, a: TinyAction): seq<(Cell, real)>
  {
    var (x, y) := s;
    match a
    case Right => [((1, y), 1.0)]
    case UpC => [((x, if y + 1 < 2 then y + 1 else 2), 1.0)]
    case Left => if (x, y) == (0, 2) then [((0, 0), 1.0)] else [((0, y), 1.0)]
    case UpR =>
      if x == 0 then
        if y < 2 then [((x, y), 0.1), ((x + 1, y), 0.1), ((x, y + 1), 0.8)]
        else [((0, 0), 0.1), ((1, 2), 0.1), ((0, 2), 0.8)]
      else if y < 2 then [((0, y), 0.1), ((1, y), 0.1), ((1, y + 1), 0.8)]
      else [((0, 2), 0.1), ((1, 2), 0.9)]
  }

  /** The reward tables are indexed by x and y, so they are defined where
      those indices exist (Python also accepts negative indices). */
  predicate TinyRDefined(s: Cell, a: TinyAction)
  {
    match a
    case Right => -2 <= s.0 < 2
    case UpC => -3 <= s.1 < 3
    case Left => s.0 != 0 || -3 <= s.1 < 3
    case UpR => -2 <= s.0 < 2 && -3 <= s.1 < 3
  }

  function TinyR(s: Cell, a: TinyAction): real
    requires TinyRDefined(s, a)
  {
    var (x, y) := s;
    match a
    case Right => PyAt([0.0, -1.0], x)
    case UpC => PyAt([-1.0, -1.0, -2.0], y)
    case Left => if x == 0 then PyAt([-1.0, -100.0, 10.0], y) else 0.0
    case UpR => PyAt(PyAt([[-0.1, -10.0, 0.2], [-0.1, -0.1, -0.9]], x), y)
  }

  function TinyMdp(discount: real := 0.9): (mdp: Mdp<Cell, TinyAction>)
    ensures mdp.discount == discount
  {
    Mdp(TinyStates(), [TinyAction.Right, UpC, TinyAction.Left, UpR], discount, TinyP, TinyR)
  }

  /** Every tiny distribution has mass 1. */
  lemma TinyMass(s: Cell, a: TinyAction)
    ensures Mass(TinyP(s, a)) == 1.0
  {
    var d := TinyP(s, a);
    if |d| == 1 {
      assert Mass(d) == d[0].1 + Mass(d[1..]);
    } else if |d| == 2 {
      assert Mass(d) == d[0].1 + (d[1].1 + Mass(d[2..]));
    } else {
      assert Mass(d) == d[0].1 + (d[1].1 + (d[2].1 + Mass(d[3..])));
    }
  }

  /** From a state of the grid, every successor of every action is a state,
      and the reward is defined. */
  lemma TinyClosed(discount: real)
    ensures SuccessorsIn(TinyMdp(discount), StateSet(TinyMdp(discount)))
  {
    var mdp := TinyMdp(discount);
    forall s, a | s in mdp.states && a in mdp.actions
      ensures mdp.P.requires(s, a) && mdp.R.requires(s, a) && Supported(mdp.P(s, a), StateSet(mdp))
    {
      RectMember(2, 3, s);
      TinyStep(s, a);
      var d := TinyP(s, a);
      forall i | 0 <= i < |d| ensures d[i].0 in StateSet(mdp) {
        RectMember(2, 3, d[i].0);
      }
    }
  }

  /** From a cell with 0 <= x < 2 and 0 <= y < 3 the reward is defined and
      every successor is such a cell. */
  lemma TinyStep(s: Cell, a: TinyAction)
    requires 0 <= s.0 < 2 && 0 <= s.1 < 3
    ensures TinyRDefined(s, a)
    ensures forall i :: 0 <= i < |TinyP(s, a)| ==> 0 <= TinyP(s, a)[i].0.0 < 2 && 0 <= TinyP(s, a)[i].0.1 < 3
  {
  }

  // ---------------------------------------------------------------------------
  // grid

  datatype GridAction = Up | Down | Right | Left

  datatype Grid = Grid(discount: real, dx: int, dy: int)

  /** grid(discount=0.9, dx=10, dy=10). */
  function NewGrid(discount: real := 0.9, dx: int := 10, dy: int := 10): (g: Grid)
    ensures g.discount == discount && g.dx == dx && g.dy == dy
  {
    Grid(discount, dx, dy)
  }

  const GridActions: seq<GridAction> := [Up, Down, GridAction.Right, GridAction.Left]

  const RewardingStates: map<Cell, real> := map[(3, 2) := -10.0, (3, 5) := -5.0, (8, 2) := 10.0, (7, 7) := 3.0]

  const FlingStates: set<Cell> := {(8, 2), (7, 7)}

  /** The states as written: [(x, y) for x in range(dy) for y in range(dy)]. */
  function GridStatesAsWritten(g: Grid): seq<Cell>
  {
    Rect(g.dy, g.dy)
  }

  /** The states of a dx by dy grid: [(x, y) for x in range(dx) for y in range(dy)]. */
  function GridStates(g: Grid): seq<Cell>
  {
    Rect(g.dx, g.dy)
  }

  /** The cell one step in direction a, or s itself against a wall. */
  function IntendedNext(g: Grid, s: Cell, a: GridAction): (t: Cell)
  {
    var (x, y) := s;
    match a
    case Up => (x, if y + 1 < g.dy then y + 1 else y)
    case Down => (x, if y > 0 then y - 1 else y)
    case Right => (if x + 1 < g.dx then x + 1 else x, y)
    case Left => (if x > 0 then x - 1 else x, y)
  }

  predicate InGrid(g: Grid, s: Cell)
  {
    0 <= s.0 < g.dx && 0 <= s.1 < g.dy
  }

  /** The agent stays on the grid, moves along at most one axis by at most
      one cell, and stays put exactly at the wall it heads into. */
  lemma IntendedNextOnGrid(g: Grid, s: Cell, a: GridAction)
    requires InGrid(g, s)
    ensures InGrid(g, IntendedNext(g, s, a))
    ensures var t := IntendedNext(g, s, a);
      (t.0 == s.0 && -1 <= t.1 - s.1 <= 1) || (t.1 == s.1 && -1 <= t.0 - s.0 <= 1)
    ensures IntendedNext(g, s, a) == s <==> Bumps(g, s, a)
  {
  }

  /** s touches the wall that lies in direction a. */
  predicate Bumps(g: Grid, s: Cell, a: GridAction)
  {
    match a
    case Up => s.1 == g.dy - 1
    case Down => s.1 == 0
    case Right => s.0 == g.dx - 1
    case Left => s.0 == 0
  }

  function Chance(ai: GridAction, a: GridAction): real
  {
    if ai == a then 0.7 else 0.1
  }

  /** The successor dictionary after the loop has seen the actions `acts`. */
  function Moves(g: Grid, s: Cell, a: GridAction, acts: seq<GridAction>): seq<(Cell, real)>
  {
    if acts == [] then []
    else
      var ai := acts[|acts| - 1];
      AddTo(Moves(g, s, a, acts[..|acts| - 1]), IntendedNext(g, s, ai), Chance(ai, a))
  }

  /** {(0,0): 0.25, (dx-1,0): 0.25, (0,dy-1): 0.25, (dx-1,dy-1): 0.25}; a key
      repeated in the literal keeps one entry. */
  function FlingCorners(g: Grid): seq<(Cell, real)>
  {
    Put(Put(Put(Put([], (0, 0), 0.25), (g.dx - 1, 0), 0.25), (0, g.dy - 1), 0.25), (g.dx - 1, g.dy - 1), 0.25)
  }

  function GridP(g: Grid, s: Cell, a: GridAction): seq<(Cell, real)>
  {
    if s in FlingStates then FlingCorners(g) else Moves(g, s, a, GridActions)
  }

  /** grid.P: the four corners from a fling state; otherwise the loop over
      the actions, adding each one's chance to the cell it leads to. */
  method GridPLoop(g: Grid, s: Cell, a: GridAction) returns (res: seq<(Cell, real)>)
    ensures res == GridP(g, s, a)
  {
    if s in FlingStates {
      return FlingCorners(g);
    }
    res := [];
    var i := 0;
    while i < |GridActions|
      invariant 0 <= i <= |GridActions|
      invariant res == Moves(g, s, a, GridActions[..i])
    {
      var ai := GridActions[i];
      var s1 := IntendedNext(g, s, ai);
      var ps1 := if ai == a then 0.7 else 0.1;
      res := AddTo(res, s1, ps1);
      assert GridActions[..i + 1][..i] == GridActions[..i];
      i := i + 1;
    }
    assert GridActions[..i] == GridActions;
  }

  /** The chance of reaching t: the chances of the actions leading there. */
  function Weight(g: Grid, s: Cell, a: GridAction, acts: seq<GridAction>, t: Cell): real
  {
    if acts == [] then 0.0
    else
      var ai := acts[|acts| - 1];
      Weight(g, s, a, acts[..|acts| - 1], t) + (if IntendedNext(g, s, ai) == t then Chance(ai, a) else 0.0)
  }

  function TotalChance(a: GridAction, acts: seq<GridAction>): real
  {
    if acts == [] then 0.0 else TotalChance(a, acts[..|acts| - 1]) + Chance(acts[|acts| - 1], a)
  }

  lemma {:induction false} MovesLookup(g: Grid, s: Cell, a: GridAction, acts: seq<GridAction>, t: Cell)
    ensures Lookup(Moves(g, s, a, acts), t) == Weight(g, s, a, acts, t)
  {
    if acts != [] {
      var ai := acts[|acts| - 1];
      MovesLookup(g, s, a, acts[..|acts| - 1], t);
      LookupAddTo(Moves(g, s, a, acts[..|acts| - 1]), IntendedNext(g, s, ai), Chance(ai, a), t);
    }
  }

  lemma {:induction false} MovesMass(g: Grid, s: Cell, a: GridAction, acts: seq<GridAction>)
    ensures Mass(Moves(g, s, a, acts)) == TotalChance(a, acts)
  {
    if acts != [] {
      var ai := acts[|acts| - 1];
      MovesMass(g, s, a, acts[..|acts| - 1]);
      MassAddTo(Moves(g, s, a, acts[..|acts| - 1]), IntendedNext(g, s, ai), Chance(ai, a));
    }
  }

  /** Away from the fling states, the chosen direction has chance 0.7 and
      each other one 0.1, and cells reached by several directions (in the
      corners) collect their chances; the total is 1. */
  lemma GridPMoves(g: Grid, s: Cell, a: GridAction, t: Cell)
    requires s !in FlingStates
    ensures Lookup(GridP(g, s, a), t) == Weight(g, s, a, GridActions, t)
    ensures Mass(GridP(g, s, a)) == 1.0
  {
    MovesLookup(g, s, a, GridActions, t);
    MovesMass(g, s, a, GridActions);
    TotalChanceOne(a);
  }

  /** From a fling state of a grid at least 2 by 2, each corner has chance
      0.25 and nothing else is reached. */
  lemma GridPFling(g: Grid, s: Cell, a: GridAction, t: Cell)
    requires s in FlingStates && g.dx >= 2 && g.dy >= 2
    ensures Lookup(GridP(g, s, a), t)
            == if t in {(0, 0), (g.dx - 1, 0), (0, g.dy - 1), (g.dx - 1, g.dy - 1)} then 0.25 else 0.0
    ensures Mass(GridP(g, s, a)) == 1.0
  {
    var c1, c2, c3, c4 := (0, 0), (g.dx - 1, 0), (0, g.dy - 1), (g.dx - 1, g.dy - 1);
    var d1 := Put([], c1, 0.25);
    var d2 := Put(d1, c2, 0.25);
    var d3 := Put(d2, c3, 0.25);
    LookupPut([], c1, 0.25, t);
    LookupPut(d1, c2, 0.25, t);
    LookupPut(d2, c3, 0.25, t);
    LookupPut(d3, c4, 0.25, t);
    var e: seq<(Cell, real)> := [];
    assert Keys(e) == {};
    MassPutNew(e, c1, 0.25);
    MassPutNew(d1, c2, 0.25);
    MassPutNew(d2, c3, 0.25);
    MassPutNew(d3, c4, 0.25);
  }

  /** -0.7 against the wall the action heads into, -0.1 against any other. */
  function WallPenalty(hits: bool, heading: bool): real
  {
    if !hits then 0.0 else if heading then -0.7 else -0.1
  }

  function GridR(g: Grid, s: Cell, a: GridAction): real
  {
    if s in RewardingStates then RewardingStates[s]
    else
      var (x, y) := s;
      WallPenalty(y == 0, a == Down) + WallPenalty(y == g.dy - 1, a == Up)
      + WallPenalty(x == 0, a == GridAction.Left) + WallPenalty(x == g.dx - 1, a == GridAction.Right)
  }

  /** The number of walls the cell touches. */
  function Walls(g: Grid, s: Cell): int
  {
    (if s.1 == 0 then 1 else 0) + (if s.1 == g.dy - 1 then 1 else 0)
    + (if s.0 == 0 then 1 else 0) + (if s.0 == g.dx - 1 then 1 else 0)
  }

  /** Outside the rewarding states, each touched wall costs 0.1 and bumping
      into the one ahead 0.6 more; inside the grid a bump is exactly a move
      that stays put, and the interior costs nothing. */
  lemma GridRWalls(g: Grid, s: Cell, a: GridAction)
    requires s !in RewardingStates && InGrid(g, s)
    ensures GridR(g, s, a) == -0.1 * (Walls(g, s) as real) - (if IntendedNext(g, s, a) == s then 0.6 else 0.0)
    ensures Walls(g, s) == 0 ==> GridR(g, s, a) == 0.0
  {
    IntendedNextOnGrid(g, s, a);
  }

  /** Rewarding states pay their table value whatever the action. */
  lemma GridRRewarding(g: Grid, s: Cell, a: GridAction, b: GridAction)
    requires s in RewardingStates
    ensures GridR(g, s, a) == GridR(g, s, b) == RewardingStates[s]
  {
  }

  function GridMdp(g: Grid): (mdp: Mdp<Cell, GridAction>)
    ensures mdp.states == GridStates(g) && mdp.actions == GridActions && mdp.discount == g.discount
  {
    Mdp(GridStates(g), GridActions, g.discount, (s, a) => GridP(g, s, a), (s, a) => GridR(g, s, a))
  }

  function GridMdpAsWritten(g: Grid): (mdp: Mdp<Cell, GridAction>)
    ensures mdp.states == GridStatesAsWritten(g) && mdp.actions == GridActions
  {
    Mdp(GridStatesAsWritten(g), GridActions, g.discount, (s, a) => GridP(g, s, a), (s, a) => GridR(g, s, a))
  }

  /** Every successor of a grid state is a grid state. */
  lemma GridClosed(g: Grid)
    ensures SuccessorsIn(GridMdp(g), StateSet(GridMdp(g)))
  {
    var mdp := GridMdp(g);
    forall s, a | s in mdp.states && a in mdp.actions ensures Supported(mdp.P(s, a), StateSet(mdp)) {
      RectMember(g.dx, g.dy, s);
      GridSuccessors(g, s, a);
      var d := GridP(g, s, a);
      forall i | 0 <= i < |d| ensures d[i].0 in StateSet(mdp) {
        RectMember(g.dx, g.dy, d[i].0);
      }
    }
  }

  lemma GridSuccessors(g: Grid, s: Cell, a: GridAction)
    requires InGrid(g, s)
    ensures forall i :: 0 <= i < |GridP(g, s, a)| ==> InGrid(g, GridP(g, s, a)[i].0)
  {
    if s in FlingStates {
      FlingOnGrid(g);
    } else {
      MovesOnGrid(g, s, a);
    }
  }

  lemma FlingOnGrid(g: Grid)
    requires g.dx >= 1 && g.dy >= 1
    ensures forall i :: 0 <= i < |FlingCorners(g)| ==> InGrid(g, FlingCorners(g)[i].0)
  {
    var c1, c2, c3, c4 := (0, 0), (g.dx - 1, 0), (0, g.dy - 1), (g.dx - 1, g.dy - 1);
    var d1 := Put([], c1, 0.25);
    var d2 := Put(d1, c2, 0.25);
    var d3 := Put(d2, c3, 0.25);
    PutKeys([], c1, 0.25);
    PutKeys(d1, c2, 0.25);
    PutKeys(d2, c3, 0.25);
    PutKeys(d3, c4, 0.25);
    KeysIndex(FlingCorners(g));
  }

  lemma MovesOnGrid(g: Grid, s: Cell, a: GridAction)
    requires InGrid(g, s)
    ensures forall i :: 0 <= i < |Moves(g, s, a, GridActions)| ==> InGrid(g, Moves(g, s, a, GridActions)[i].0)
  {
    forall ai | ai in GridActions ensures InGrid(g, IntendedNext(g, s, ai)) {
      IntendedNextOnGrid(g, s, ai);
    }
    MovesKeys(g, s, a, GridActions);
    KeysIndex(Moves(g, s, a, GridActions));
  }

  lemma SingletonKeys(k: Cell, p: real)
    ensures Keys([(k, p)]) == {k}
  {
    var one := [(k, p)];
    assert one[0].0 == k;
  }

  /** The four actions' chances add up to 1 whichever was chosen. */
  lemma TotalChanceOne(a: GridAction)
    ensures TotalChance(a, GridActions) == 1.0
  {
    assert GridActions[..3] == [Up, Down, GridAction.Right];
    assert GridActions[..3][..2] == [Up, Down];
    assert [Up, Down][..1] == [Up];
    assert [Up][..0] == [];
  }

  lemma KeysIndex(d: seq<(Cell, real)>)
    ensures forall i :: 0 <= i < |d| ==> d[i].0 in Keys(d)
  {
  }

  lemma {:induction false} PutKeys(d: seq<(Cell, real)>, k: Cell, p: real)
    ensures Keys(Put(d, k, p)) == Keys(d) + {k}
  {
    if d != [] {
      PutKeys(d[1..], k, p);
      KeysCons(d);
      if d[0].0 == k {
        KeysCons(Put(d, k, p));
        assert Put(d, k, p)[1..] == d[1..];
      } else {
        KeysCons(Put(d, k, p));
        assert Put(d, k, p)[1..] == Put(d[1..], k, p);
      }
    } else {
      SingletonKeys(k, p);
    }
  }

  lemma {:induction false} AddToKeys(d: seq<(Cell, real)>, k: Cell, p: real)
    ensures Keys(AddTo(d, k, p)) == Keys(d) + {k}
  {
    if d != [] {
      AddToKeys(d[1..], k, p);
      KeysCons(d);
      KeysCons(AddTo(d, k, p));
      if d[0].0 == k {
        assert AddTo(d, k, p)[1..] == d[1..];
      } else {
        assert AddTo(d, k, p)[1..] == AddTo(d[1..], k, p);
      }
    } else {
      SingletonKeys(k, p);
    }
  }

  lemma {:induction false} MovesKeys(g: Grid, s: Cell, a: GridAction, acts: seq<GridAction>)
    ensures forall t :: t in Keys(Moves(g, s, a, acts)) ==> exists ai :: ai in acts && t == IntendedNext(g, s, ai)
  {
    if acts != [] {
      var ai := acts[|acts| - 1];
      var init := acts[..|acts| - 1];
      MovesKeys(g, s, a, init);
      AddToKeys(Moves(g, s, a, init), IntendedNext(g, s, ai), Chance(ai, a));
      forall t | t in Keys(Moves(g, s, a, acts)) ensures exists bi :: bi in acts && t == IntendedNext(g, s, bi) {
        if t in Keys(Moves(g, s, a, init)) {
          var bi :| bi in init && t == IntendedNext(g, s, bi);
          assert bi in acts;
        } else {
          assert ai in acts;
        }
      }
    } else {
      var e: seq<(Cell, real)> := [];
      assert Keys(e) == {};
    }
  }

  /** With the states written over range(dy) twice, a 3 by 2 grid lists
      (1, 0) but not (2, 0), where moving right from (1, 0) leads. */
  lemma GridStatesAsWrittenNotClosed()
    ensures var g := NewGrid(0.9, 3, 2);
      && (1, 0) in GridStatesAsWritten(g)
      && (2, 0) in Keys(GridP(g, (1, 0), GridAction.Right))
      && (2, 0) !in GridStatesAsWritten(g)
      && !SuccessorsIn(GridMdpAsWritten(g), StateSet(GridMdpAsWritten(g)))
  {
    var g := NewGrid(0.9, 3, 2);
    RectMember(2, 2, (1, 0));
    RectMember(2, 2, (2, 0));
    assert IntendedNext(g, (1, 0), GridAction.Right) == (2, 0);
    MovesLookup(g, (1, 0), GridAction.Right, GridActions, (2, 0));
    assert GridActions[..3] == [Up, Down, GridAction.Right];
    assert GridActions[..3][..2] == [Up, Down];
    assert [Up, Down][..1] == [Up];
    assert [Up][..0] == [];
    assert Weight(g, (1, 0), GridAction.Right, GridActions, (2, 0)) == 0.7;
    LookupKeys(GridP(g, (1, 0), GridAction.Right), (2, 0));
    var mdp := GridMdpAsWritten(g);
    var d := mdp.P((1, 0), GridAction.Right);
    var i :| 0 <= i < |d| && d[i].0 == (2, 0);
    assert !Supported(d, StateSet(mdp));
  }

  /** A key with nonzero probability is a key of the dictionary. */
  lemma {:induction false} LookupKeys(d: seq<(Cell, real)>, k: Cell)
    requires Lookup(d, k) != 0.0
    ensures k in Keys(d)
  {
    if d[0].0 != k {
      LookupKeys(d[1..], k);
      KeysCons(d);
    } else {
      assert d[0].0 in Keys(d);
    }
  }

  /** For square grids the states as written are the grid's states. */
  lemma GridStatesSquare(g: Grid)
    requires g.dx == g.dy
    ensures GridStatesAsWritten(g) == GridStates(g)
  {
  }
}
