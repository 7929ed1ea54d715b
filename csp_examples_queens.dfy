// The n-queens problem as a constraint satisfaction problem: one variable
// "Ri" per row whose value is the column of the queen in that row, and a
// binary constraint for every ordered pair of distinct rows saying that the
// two queens cannot take each other.
module CspExamplesQueens {

  /** Python's abs on integers. */
  function Abs(x: int): (r: int)
    ensures r >= 0 && (r == x || r == -x)
  {
    if x < 0 then -x else x
  }

  /** Queens at (ri, ci) and (rj, cj) on different rows attack each other
      when they share a column or a diagonal in either direction. */
  predicate Attacks(ri: int, ci: int, rj: int, cj: int)
  {
    ci == cj || ri - rj == ci - cj || ri + ci == rj + cj
  }

  /** no_take as written: ci != cj and abs(ri - ci) != abs(rj - cj). */
  function NoTakeAsWritten(ri: int, rj: int, ci: int, cj: int): bool
  {
    ci != cj && Abs(ri - ci) != Abs(rj - cj)
  }

  /** The test as written rules out a shared column and one diagonal
      direction, but compares ri + rj with ci + cj where the other diagonal
      needs ri + ci against rj + cj. */
  lemma NoTakeAsWrittenMeaning(ri: int, rj: int, ci: int, cj: int)
    ensures !NoTakeAsWritten(ri, rj, ci, cj) <==> ci == cj || ri - rj == ci - cj || ri + rj == ci + cj
  {
  }

  lemma NoTakeAsWrittenSameColumn(ri: int, rj: int, ci: int, cj: int)
    requires ci == cj
    ensures !NoTakeAsWritten(ri, rj, ci, cj)
  {
  }

  lemma NoTakeAsWrittenSymmetric(ri: int, rj: int, ci: int, cj: int)
    ensures NoTakeAsWritten(ri, rj, ci, cj) == NoTakeAsWritten(rj, ri, cj, ci)
  {
  }

  /** As written, the queens at (0, 2) and (1, 1) share a diagonal but are
      accepted, and those at (0, 2) and (3, 1) are safe but rejected. */
  lemma NoTakeAsWrittenWrong()
    ensures Attacks(0, 2, 1, 1) && NoTakeAsWritten(0, 1, 2, 1)
    ensures !Attacks(0, 2, 3, 1) && !NoTakeAsWritten(0, 3, 2, 1)
  {
  }

  /** no_take with the diagonal test abs(ri - rj) != abs(ci - cj). */
  function NoTake(ri: int, rj: int, ci: int, cj: int): (r: bool)
    ensures r <==> !Attacks(ri, ci, rj, cj)
  {
    ci != cj && Abs(ri - rj) != Abs(ci - cj)
  }

  lemma NoTakeSameColumn(ri: int, rj: int, ci: int, cj: int)
    requires ci == cj
    ensures !NoTake(ri, rj, ci, cj)
  {
  }

  lemma NoTakeSymmetric(ri: int, rj: int, ci: int, cj: int)
    ensures NoTake(ri, rj, ci, cj) == NoTake(rj, ri, cj, ci)
  {
  }

  // ---------------------------------------------------------------------------
  // Variable names

  function Digit(d: int): char
    requires 0 <= d < 10
  {
    "0123456789"[d]
  }

  /** str(n) for a natural number: its decimal digits. */
  function NatToString(n: nat): (s: string)
    ensures 1 <= |s| && (n < 10 <==> |s| == 1)
    ensures s[|s| - 1] == Digit(n % 10)
  {
    if n < 10 then [Digit(n)] else NatToString(n / 10) + [Digit(n % 10)]
  }

  lemma DigitInjective(a: int, b: int)
    requires 0 <= a < 10 && 0 <= b < 10 && Digit(a) == Digit(b)
    ensures a == b
  {
  }

  /** Different numbers have different decimal strings. */
  lemma {:induction false} NatToStringInjective(a: nat, b: nat)
    requires NatToString(a) == NatToString(b)
    ensures a == b
  {
    var sa, sb := NatToString(a), NatToString(b);
    DigitInjective(a % 10, b % 10);
    if a >= 10 && b >= 10 {
      assert sa[..|sa| - 1] == NatToString(a / 10);
      assert sb[..|sb| - 1] == NatToString(b / 10);
      NatToStringInjective(a / 10, b / 10);
    }
  }

  /** 'R' + str(i). */
  function VarName(i: nat): (x: string)
    ensures |x| >= 2 && x[0] == 'R'
  {
    "R" + NatToString(i)
  }

  lemma VarNameInjective(i: nat, j: nat)
    requires VarName(i) == VarName(j)
    ensures i == j
  {
    assert VarName(i)[1..] == NatToString(i);
    assert VarName(j)[1..] == NatToString(j);
    NatToStringInjective(i, j);
  }

  // ---------------------------------------------------------------------------
  // The CSP

  /** A constraint: its scope and a condition on the values of the scope. */
  datatype Constraint = Constraint(scope: seq<string>, condition: (int, int) -> bool)

  datatype Csp = Csp(domains: map<string, seq<int>>, constraints: seq<Constraint>)

  /** list(range(n)). */
  function Columns(n: int): (cs: seq<int>)
    ensures |cs| == if n < 0 then 0 else n
    ensures forall k :: 0 <= k < |cs| ==> cs[k] == k
  {
    seq(if n < 0 then 0 else n, k => k)
  }

  /** The pairs (i, j) with j in range(m) and j != i, in order of j. */
  function RowPairs(i: int, m: int): seq<(int, int)>
  {
    if m <= 0 then [] else RowPairs(i, m - 1) + (if m - 1 != i then [(i, m - 1)] else [])
  }

  /** for i in range(k) for j in range(n) if i != j. */
  function Pairs(n: int, k: int): seq<(int, int)>
  {
    if k <= 0 then [] else Pairs(n, k - 1) + RowPairs(k - 1, n)
  }

  lemma {:induction false} RowPairsMember(i: int, m: int, p: (int, int))
    ensures p in RowPairs(i, m) <==> p.0 == i && 0 <= p.1 < m && p.1 != i
  {
    if m > 0 {
      RowPairsMember(i, m - 1, p);
    }
  }

  lemma {:induction false} RowPairsLength(i: int, m: int)
    requires m >= 0
    ensures |RowPairs(i, m)| == if 0 <= i < m then m - 1 else m
  {
    if m > 0 {
      RowPairsLength(i, m - 1);
    }
  }

  lemma {:induction false} PairsMember(n: int, k: int, p: (int, int))
    ensures p in Pairs(n, k) <==> 0 <= p.0 < k && 0 <= p.1 < n && p.0 != p.1
  {
    if k > 0 {
      var before, row := Pairs(n, k - 1), RowPairs(k - 1, n);
      assert Pairs(n, k) == before + row;
      PairsMember(n, k - 1, p);
      RowPairsMember(k - 1, n, p);
      assert p in before + row <==> p in before || p in row;
    }
  }

  lemma {:induction false} PairsLength(n: int, k: int)
    requires 0 <= k <= n
    ensures |Pairs(n, k)| == k * (n - 1)
  {
    if k > 0 {
      PairsLength(n, k - 1);
      RowPairsLength(k - 1, n);
      assert k * (n - 1) == (k - 1) * (n - 1) + (n - 1);
    }
  }

  /** n_queens(n), with the pairwise test as a parameter. */
  function NQueensWith(n: int, noTake: (int, int, int, int) -> bool): Csp
  {
    var ps := Pairs(n, n);
    Csp(map i | 0 <= i < n :: VarName(i) := Columns(n),
        seq(|ps|, k requires 0 <= k < |ps| =>
          var i, j := ps[k].0, ps[k].1;
          Constraint([VarName(if i < 0 then 0 else i), VarName(if j < 0 then 0 else j)],
                     (ci, cj) => noTake(i, j, ci, cj))))
  }

  function NQueens(n: int): Csp
  {
    NQueensWith(n, NoTake)
  }

  function NQueensAsWritten(n: int): Csp
  {
    NQueensWith(n, NoTakeAsWritten)
  }

  /** The variables are R0 .. R(n-1), each with the columns 0 .. n-1. */
  lemma NQueensVariables(n: int, noTake: (int, int, int, int) -> bool)
    ensures var csp := NQueensWith(n, noTake);
      && (forall i: nat :: i < n ==> VarName(i) in csp.domains && csp.domains[VarName(i)] == Columns(n))
      && (forall x :: x in csp.domains ==> exists i: nat :: i < n && x == VarName(i))
  {
  }

  /** c is the constraint of rows p.0 and p.1: over R_i and R_j, with
      no_take for those rows. */
  ghost predicate ConstraintOn(c: Constraint, p: (int, int), noTake: (int, int, int, int) -> bool)
  {
    && p.0 >= 0 && p.1 >= 0
    && c.scope == [VarName(p.0), VarName(p.1)]
    && forall ci, cj :: c.condition(ci, cj) == noTake(p.0, p.1, ci, cj)
  }

  /** One constraint per ordered pair of distinct rows, n * (n - 1) in all,
      in the order of the pairs. */
  lemma NQueensConstraints(n: int, noTake: (int, int, int, int) -> bool)
    requires n >= 0
    ensures |NQueensWith(n, noTake).constraints| == |Pairs(n, n)| == n * (n - 1)
    ensures forall k :: 0 <= k < |Pairs(n, n)| ==> ConstraintOn(NQueensWith(n, noTake).constraints[k], Pairs(n, n)[k], noTake)
  {
    var ps := Pairs(n, n);
    PairsLength(n, n);
    var cs := NQueensWith(n, noTake).constraints;
    forall k | 0 <= k < |ps| ensures ConstraintOn(cs[k], ps[k], noTake) {
      PairsMember(n, n, ps[k]);
    }
  }

  /** A value for every variable of the scope at which the condition holds. */
  predicate Satisfies(c: Constraint, asst: map<string, int>)
  {
    |c.scope| == 2 && c.scope[0] in asst && c.scope[1] in asst && c.condition(asst[c.scope[0]], asst[c.scope[1]])
  }

  /** The column chosen for each of the n rows. */
  predicate Complete(n: int, asst: map<string, int>)
  {
    forall i: nat :: i < n ==> VarName(i) in asst
  }

  /** A complete assignment satisfies every constraint of n_queens(n) exactly
      when no two queens attack each other. */
  lemma NQueensSolutions(n: int, asst: map<string, int>)
    requires n >= 0 && Complete(n, asst)
    ensures (forall k :: 0 <= k < |NQueens(n).constraints| ==> Satisfies(NQueens(n).constraints[k], asst))
            <==> forall i: nat, j: nat :: i < n && j < n && i != j ==> !Attacks(i, asst[VarName(i)], j, asst[VarName(j)])
  {
    NQueensConstraints(n, NoTake);
    if forall k :: 0 <= k < |NQueens(n).constraints| ==> Satisfies(NQueens(n).constraints[k], asst) {
      SolutionsAreSafe(n, asst);
    }
    if forall i: nat, j: nat :: i < n && j < n && i != j ==> !Attacks(i, asst[VarName(i)], j, asst[VarName(j)]) {
      SafeAreSolutions(n, asst);
    }
  }

  lemma SolutionsAreSafe(n: int, asst: map<string, int>)
    requires n >= 0 && Complete(n, asst)
    requires |NQueens(n).constraints| == |Pairs(n, n)|
    requires forall k :: 0 <= k < |Pairs(n, n)| ==> ConstraintOn(NQueens(n).constraints[k], Pairs(n, n)[k], NoTake)
    requires forall k :: 0 <= k < |NQueens(n).constraints| ==> Satisfies(NQueens(n).constraints[k], asst)
    ensures forall i: nat, j: nat :: i < n && j < n && i != j ==> !Attacks(i, asst[VarName(i)], j, asst[VarName(j)])
  {
    var ps := Pairs(n, n);
    var cs := NQueens(n).constraints;
    forall i: nat, j: nat | i < n && j < n && i != j
      ensures !Attacks(i, asst[VarName(i)], j, asst[VarName(j)])
    {
      PairsMember(n, n, (i, j));
      var k :| 0 <= k < |ps| && ps[k] == (i, j);
      assert ConstraintOn(cs[k], (i, j), NoTake);
      assert Satisfies(cs[k], asst);
    }
  }

  lemma SafeAreSolutions(n: int, asst: map<string, int>)
    requires n >= 0 && Complete(n, asst)
    requires |NQueens(n).constraints| == |Pairs(n, n)|
    requires forall k :: 0 <= k < |Pairs(n, n)| ==> ConstraintOn(NQueens(n).constraints[k], Pairs(n, n)[k], NoTake)
    requires forall i: nat, j: nat :: i < n && j < n && i != j ==> !Attacks(i, asst[VarName(i)], j, asst[VarName(j)])
    ensures forall k :: 0 <= k < |NQueens(n).constraints| ==> Satisfies(NQueens(n).constraints[k], asst)
  {
    var ps := Pairs(n, n);
    var cs := NQueens(n).constraints;
    forall k | 0 <= k < |cs| ensures Satisfies(cs[k], asst) {
      PairsMember(n, n, ps[k]);
      var i: nat, j: nat := ps[k].0, ps[k].1;
      assert ConstraintOn(cs[k], (i, j), NoTake);
      assert !Attacks(i, asst[VarName(i)], j, asst[VarName(j)]);
    }
  }
}
