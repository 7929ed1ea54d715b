// STRIPS representation of actions: an action has preconditions and
// effects, both partial assignments of values to features; a domain pairs
// each feature with its set of values and lists the actions; a planning
// problem adds an initial state and a goal.  The blocks-world generator
// builds its features and actions from block names.
module StripsProblem {
  import opened Utilities

  type Feature = string

  /** A feature's value.  The delivery domain and the blocks world use
      location and block names and the truth values. */
  datatype Value = Name(name: string) | Truth(truth: bool)

  /** A feature:value dictionary (a state, a goal, preconditions, effects). */
  type Assignment = map<Feature, Value>

  datatype Strips = Strips(name: string, preconds: Assignment, effects: Assignment, cost: int)

  /** Strips(name, preconds, effects, cost=1). */
  function NewStrips(name: string, preconds: Assignment, effects: Assignment, cost: int := 1): (act: Strips)
    ensures act.name == name && act.preconds == preconds && act.effects == effects && act.cost == cost
  {
    Strips(name, preconds, effects, cost)
  }

  lemma NewStripsDefaultCost(name: string, preconds: Assignment, effects: Assignment)
    ensures NewStrips(name, preconds, effects).cost == 1
  {
  }

  datatype StripsDomain = StripsDomain(featsVals: map<Feature, set<Value>>, actions: set<Strips>)

  datatype PlanningProblem = PlanningProblem(probDomain: StripsDomain, initialState: Assignment, goal: Assignment)

  /** An arc of a search graph, labelled with the action that makes it
      (the search-problem classes are not part of this model). */
  datatype Arc<N> = Arc(fromNode: N, toNode: N, cost: int, action: Strips)

  /** Every feature of `partial` has the same value in `full`. */
  predicate Holds(partial: Assignment, full: Assignment)
  {
    forall f :: f in partial ==> f in full && full[f] == partial[f]
  }

  const Boolean: set<Value> := {Truth(true), Truth(false)}

  // ---------------------------------------------------------------------------
  // The delivery robot domain, as a fixture

  function Loc(l: string): Value
  {
    Name(l)
  }

  const DeliveryDomain := StripsDomain(
    map["RLoc" := {Loc("cs"), Loc("off"), Loc("lab"), Loc("mr")}, "RHC" := Boolean, "SWC" := Boolean,
        "MW" := Boolean, "RHM" := Boolean],
    {NewStrips("mc_cs", map["RLoc" := Loc("cs")], map["RLoc" := Loc("off")]),
     NewStrips("mc_off", map["RLoc" := Loc("off")], map["RLoc" := Loc("lab")]),
     NewStrips("mc_lab", map["RLoc" := Loc("lab")], map["RLoc" := Loc("mr")]),
     NewStrips("mc_mr", map["RLoc" := Loc("mr")], map["RLoc" := Loc("cs")]),
     NewStrips("mcc_cs", map["RLoc" := Loc("cs")], map["RLoc" := Loc("mr")]),
     NewStrips("mcc_off", map["RLoc" := Loc("off")], map["RLoc" := Loc("cs")]),
     MccLab,
     NewStrips("mcc_mr", map["RLoc" := Loc("mr")], map["RLoc" := Loc("lab")]),
     NewStrips("puc", map["RLoc" := Loc("cs"), "RHC" := Truth(false)], map["RHC" := Truth(true)]),
     NewStrips("dc", map["RLoc" := Loc("off"), "RHC" := Truth(true)], map["RHC" := Truth(false), "SWC" := Truth(false)]),
     NewStrips("pum", map["RLoc" := Loc("mr"), "MW" := Truth(true)], map["RHM" := Truth(true), "MW" := Truth(false)]),
     NewStrips("dm", map["RLoc" := Loc("off"), "RHM" := Truth(true)], map["RHM" := Truth(false)])})

  /** Move counter-clockwise from the lab to the office. */
  const MccLab := NewStrips("mcc_lab", map["RLoc" := Loc("lab")], map["RLoc" := Loc("off")])

  const DeliveryStart: Assignment :=
    map["RLoc" := Loc("lab"), "MW" := Truth(true), "SWC" := Truth(true), "RHC" := Truth(false), "RHM" := Truth(false)]

  const Problem0 := PlanningProblem(DeliveryDomain, DeliveryStart, map["RLoc" := Loc("off")])
  const Problem1 := PlanningProblem(DeliveryDomain, DeliveryStart, map["SWC" := Truth(false)])
  const Problem2 := PlanningProblem(DeliveryDomain, DeliveryStart,
                                    map["SWC" := Truth(false), "MW" := Truth(false), "RHM" := Truth(false)])

  // ---------------------------------------------------------------------------
  // The blocks world

  /** The name of the action moving x from y to z. */
  function Move(x: string, y: string, z: string): string
  {
    "move_" + x + "_from_" + y + "_to_" + z
  }

  /** The feature saying what x is on. */
  function On(x: string): Feature
  {
    x + "_is_on"
  }

  /** The feature saying whether x is clear. */
  function Clear(x: string): Feature
  {
    "clear_" + x
  }

  lemma OnInjective()
    ensures forall x1, x2 :: On(x1) == On(x2) ==> x1 == x2
  {
    forall x1, x2 | On(x1) == On(x2) ensures x1 == x2 {
      assert x1 == On(x1)[..|x1|];
      assert x2 == On(x2)[..|x2|];
    }
  }

  lemma ClearInjective()
    ensures forall x1, x2 :: Clear(x1) == Clear(x2) ==> x1 == x2
  {
    forall x1, x2 | Clear(x1) == Clear(x2) ensures x1 == x2 {
      assert x1 == Clear(x1)[6..];
      assert x2 == Clear(x2)[6..];
    }
  }

  /** A block name without the separator the feature names use. */
  predicate PlainName(x: string)
  {
    forall i :: 0 <= i < |x| ==> x[i] != '_'
  }

  lemma TablePlain()
    ensures PlainName("table")
  {
    assert forall i :: 0 <= i < |"table"| ==> "table"[i] != '_';
  }

  /** For names without '_', an `on` feature is never a `clear` feature. */
  lemma OnNotClear(x: string, y: string)
    requires PlainName(x) && PlainName(y)
    ensures On(x) != Clear(y)
  {
    var n := |x|;
    if |y| == n {
      if n >= 6 {
        assert On(x)[n] == '_' && Clear(y)[n] == y[n - 6];
      } else if n == 5 {
        assert On(x)[8] == '_' && Clear(y)[8] == y[2];
      } else {
        assert On(x)[n] == '_' && Clear(y)[n] == "clear_"[n];
      }
    }
  }

  /** Move x from y to the block z. */
  function MoveBlock(x: string, y: string, z: string): Strips
  {
    NewStrips(Move(x, y, z), map[On(x) := Name(y), Clear(x) := Truth(true), Clear(z) := Truth(true)],
                             map[On(x) := Name(z), Clear(y) := Truth(true), Clear(z) := Truth(false)])
  }

  /** Move x from the block y to the table. */
  function MoveToTable(x: string, y: string): Strips
  {
    NewStrips(Move(x, y, "table"), map[On(x) := Name(y), Clear(x) := Truth(true)],
                                   map[On(x) := Name("table"), Clear(y) := Truth(true)])
  }

  function Names(s: set<string>): set<Value>
  {
    set n | n in s :: Name(n)
  }

  /** create_blocks_world: the moves between blocks, the moves to the table,
      and the features `on` (a block or the table other than x) and `clear`
      (a truth value).  The `clear` features are added last, so on a name
      clash they win, as the dictionary update does.  The blocks default to
      a, b, c and d. */
  function CreateBlocksWorld(blocks: set<string> := {"a", "b", "c", "d"}): (d: StripsDomain)
    ensures d.actions == BlockMoves(blocks) + TableMoves(blocks)
    ensures d.featsVals.Keys == OnFeatures(blocks) + ClearFeatures(blocks + {"table"})
    ensures forall x :: x in blocks ==> On(x) in d.featsVals
    ensures forall x :: x in blocks + {"table"} ==> Clear(x) in d.featsVals
    ensures forall x :: x in blocks + {"table"} ==> d.featsVals[Clear(x)] == Boolean
    ensures forall x :: x in blocks && On(x) !in ClearFeatures(blocks + {"table"})
                        ==> d.featsVals[On(x)] == Names(blocks + {"table"} - {x})
  {
    StripsDomain(DictUnion(OnDomains(blocks), ClearDomains(blocks + {"table"})),
                 BlockMoves(blocks) + TableMoves(blocks))
  }

  /** The moves of a block x from y (a block or the table) onto a block z. */
  function BlockMoves(blocks: set<string>): (s: set<Strips>)
    ensures forall a :: a in s <==>
      exists x, y, z :: x in blocks && y in blocks + {"table"} && z in blocks && x != y && y != z && z != x
                        && a == MoveBlock(x, y, z)
  {
    set x, y, z | x in blocks && y in blocks + {"table"} && z in blocks && x != y && y != z && z != x
                :: MoveBlock(x, y, z)
  }

  /** The moves of a block x from a block y to the table. */
  function TableMoves(blocks: set<string>): (s: set<Strips>)
    ensures forall a :: a in s <==> exists x, y :: x in blocks && y in blocks && x != y && a == MoveToTable(x, y)
  {
    set x, y | x in blocks && y in blocks && x != y :: MoveToTable(x, y)
  }

  function OnFeatures(blocks: set<string>): set<Feature>
  {
    set x | x in blocks :: On(x)
  }

  function ClearFeatures(bt: set<string>): set<Feature>
  {
    set x | x in bt :: Clear(x)
  }

  /** {on(x): blocks_and_table - {x} for x in blocks}. */
  function OnDomains(blocks: set<string>): (m: map<Feature, set<Value>>)
    ensures m.Keys == OnFeatures(blocks)
    ensures forall x :: x in blocks ==> m[On(x)] == Names(blocks + {"table"} - {x})
  {
    OnInjective();
    map x | x in blocks :: On(x) := Names(blocks + {"table"} - {x})
  }

  /** {clear(x): boolean for x in blocks_and_table}. */
  function ClearDomains(bt: set<string>): (m: map<Feature, set<Value>>)
    ensures m.Keys == ClearFeatures(bt)
    ensures forall x :: x in bt ==> m[Clear(x)] == Boolean
  {
    ClearInjective();
    map x | x in bt :: Clear(x) := Boolean
  }

  /** Every feature the action mentions has a domain in `feats`. */
  predicate Covered(a: Strips, feats: map<Feature, set<Value>>)
  {
    a.preconds.Keys + a.effects.Keys <= feats.Keys
  }

  /** Every value the action requires or sets lies in its feature's domain. */
  predicate Fits(a: Strips, feats: map<Feature, set<Value>>)
  {
    && (forall f :: f in a.preconds ==> f in feats && a.preconds[f] in feats[f])
    && (forall f :: f in a.effects ==> f in feats && a.effects[f] in feats[f])
  }

  /** Every feature a generated action mentions has a domain. */
  lemma BlocksWorldFeaturesCovered(blocks: set<string>)
    ensures var d := CreateBlocksWorld(blocks);
      forall a :: a in d.actions ==> Covered(a, d.featsVals)
  {
    var d := CreateBlocksWorld(blocks);
    forall a | a in d.actions ensures Covered(a, d.featsVals) {
      if a in BlockMoves(blocks) {
        var x, y, z :| x in blocks && y in blocks + {"table"} && z in blocks && x != y && y != z && z != x
                       && a == MoveBlock(x, y, z);
        MoveBlockCovered(d.featsVals, x, y, z);
      } else {
        var x, y :| x in blocks && y in blocks && x != y && a == MoveToTable(x, y);
        MoveToTableCovered(d.featsVals, x, y);
      }
    }
  }

  lemma MoveBlockCovered(feats: map<Feature, set<Value>>, x: string, y: string, z: string)
    requires On(x) in feats && Clear(x) in feats && Clear(y) in feats && Clear(z) in feats
    ensures Covered(MoveBlock(x, y, z), feats)
  {
    DisplayKeys3(On(x), Name(y), Clear(x), Truth(true), Clear(z), Truth(true));
    DisplayKeys3(On(x), Name(z), Clear(y), Truth(true), Clear(z), Truth(false));
  }

  lemma MoveToTableCovered(feats: map<Feature, set<Value>>, x: string, y: string)
    requires On(x) in feats && Clear(x) in feats && Clear(y) in feats
    ensures Covered(MoveToTable(x, y), feats)
  {
    DisplayKeys2(On(x), Name(y), Clear(x), Truth(true));
    DisplayKeys2(On(x), Name("table"), Clear(y), Truth(true));
  }

  lemma DisplayKeys3<K, V>(k1: K, v1: V, k2: K, v2: V, k3: K, v3: V)
    ensures map[k1 := v1, k2 := v2, k3 := v3].Keys == {k1, k2, k3}
  {
  }

  lemma DisplayKeys2<K, V>(k1: K, v1: V, k2: K, v2: V)
    ensures map[k1 := v1, k2 := v2].Keys == {k1, k2}
  {
  }

  lemma DisplayValues3<K, V>(k1: K, v1: V, k2: K, v2: V, k3: K, v3: V)
    requires k1 != k2 && k1 != k3 && k2 != k3
    ensures var m := map[k1 := v1, k2 := v2, k3 := v3]; m[k1] == v1 && m[k2] == v2 && m[k3] == v3
  {
  }

  lemma DisplayValues2<K, V>(k1: K, v1: V, k2: K, v2: V)
    requires k1 != k2
    ensures var m := map[k1 := v1, k2 := v2]; m[k1] == v1 && m[k2] == v2
  {
  }

  /** With block names free of '_' and other than "table", every value a generated action requires
      or sets lies in its feature's domain. */
  lemma BlocksWorldValuesInDomain(blocks: set<string>)
    requires "table" !in blocks
    requires forall x :: x in blocks ==> PlainName(x)
    ensures var d := CreateBlocksWorld(blocks);
      forall a :: a in d.actions ==> Fits(a, d.featsVals)
  {
    BlockMovesFit(blocks);
    TableMovesFit(blocks);
  }

  lemma BlockMovesFit(blocks: set<string>)
    requires "table" !in blocks
    requires forall x :: x in blocks ==> PlainName(x)
    ensures forall a :: a in BlockMoves(blocks) ==> Fits(a, CreateBlocksWorld(blocks).featsVals)
  {
    forall a | a in BlockMoves(blocks) ensures Fits(a, CreateBlocksWorld(blocks).featsVals) {
      var x, y, z :| x in blocks && y in blocks + {"table"} && z in blocks && x != y && y != z && z != x
                     && a == MoveBlock(x, y, z);
      BlockMoveFits(blocks, x, y, z);
    }
  }

  lemma TableMovesFit(blocks: set<string>)
    requires "table" !in blocks
    requires forall x :: x in blocks ==> PlainName(x)
    ensures forall a :: a in TableMoves(blocks) ==> Fits(a, CreateBlocksWorld(blocks).featsVals)
  {
    forall a | a in TableMoves(blocks) ensures Fits(a, CreateBlocksWorld(blocks).featsVals) {
      var x, y :| x in blocks && y in blocks && x != y && a == MoveToTable(x, y);
      TableMoveFits(blocks, x, y);
    }
  }

  lemma BlockMoveFits(blocks: set<string>, x: string, y: string, z: string)
    requires "table" !in blocks
    requires forall x :: x in blocks ==> PlainName(x)
    requires x in blocks && y in blocks + {"table"} && z in blocks && x != y && y != z && z != x
    ensures Fits(MoveBlock(x, y, z), CreateBlocksWorld(blocks).featsVals)
  {
    WorldDomains(blocks, x);
    MoveBlockFits(CreateBlocksWorld(blocks).featsVals, blocks + {"table"}, x, y, z);
  }

  lemma TableMoveFits(blocks: set<string>, x: string, y: string)
    requires "table" !in blocks
    requires forall x :: x in blocks ==> PlainName(x)
    requires x in blocks && y in blocks && x != y
    ensures Fits(MoveToTable(x, y), CreateBlocksWorld(blocks).featsVals)
  {
    WorldDomains(blocks, x);
    MoveToTableFits(CreateBlocksWorld(blocks).featsVals, blocks + {"table"}, x, y);
  }

  /** The feature domains a move of x relies on: `on(x)` ranges over the other
      places, and every `clear` feature over the truth values. */
  predicate MoveDomains(feats: map<Feature, set<Value>>, bt: set<string>, x: string)
  {
    && (forall b :: b in bt ==> PlainName(b))
    && x in bt && "table" in bt
    && On(x) in feats && feats[On(x)] == Names(bt - {x})
    && (forall b :: b in bt ==> Clear(b) in feats && feats[Clear(b)] == Boolean)
  }

  lemma WorldDomains(blocks: set<string>, x: string)
    requires "table" !in blocks
    requires forall x :: x in blocks ==> PlainName(x)
    requires x in blocks
    ensures MoveDomains(CreateBlocksWorld(blocks).featsVals, blocks + {"table"}, x)
  {
    TablePlain();
    OnDomain(blocks, x);
  }

  /** The `on` feature of a block keeps its domain when no `clear` feature clashes with it. */
  lemma OnDomain(blocks: set<string>, x: string)
    requires forall b :: b in blocks ==> PlainName(b)
    requires x in blocks
    ensures CreateBlocksWorld(blocks).featsVals[On(x)] == Names(blocks + {"table"} - {x})
  {
    TablePlain();
    forall y | y in blocks + {"table"} ensures On(x) != Clear(y) {
      OnNotClear(x, y);
    }
    assert On(x) !in ClearFeatures(blocks + {"table"});
  }

  lemma MoveBlockFits(feats: map<Feature, set<Value>>, bt: set<string>, x: string, y: string, z: string)
    requires MoveDomains(feats, bt, x)
    requires y in bt && z in bt && x != y && y != z && z != x
    ensures Fits(MoveBlock(x, y, z), feats)
  {
    OnNotClear(x, x);
    OnNotClear(x, y);
    OnNotClear(x, z);
    ClearInjective();
    DisplayKeys3(On(x), Name(y), Clear(x), Truth(true), Clear(z), Truth(true));
    DisplayKeys3(On(x), Name(z), Clear(y), Truth(true), Clear(z), Truth(false));
    DisplayValues3(On(x), Name(y), Clear(x), Truth(true), Clear(z), Truth(true));
    DisplayValues3(On(x), Name(z), Clear(y), Truth(true), Clear(z), Truth(false));
    assert Name(y) in Names(bt - {x}) && Name(z) in Names(bt - {x});
  }

  lemma MoveToTableFits(feats: map<Feature, set<Value>>, bt: set<string>, x: string, y: string)
    requires MoveDomains(feats, bt, x)
    requires y in bt && x != y && x != "table"
    ensures Fits(MoveToTable(x, y), feats)
  {
    OnNotClear(x, x);
    OnNotClear(x, y);
    DisplayKeys2(On(x), Name(y), Clear(x), Truth(true));
    DisplayKeys2(On(x), Name("table"), Clear(y), Truth(true));
    DisplayValues2(On(x), Name(y), Clear(x), Truth(true));
    DisplayValues2(On(x), Name("table"), Clear(y), Truth(true));
    assert Name(y) in Names(bt - {x}) && Name("table") in Names(bt - {x});
  }
}
