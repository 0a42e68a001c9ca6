/**
 * Linear constraints over integer decision variables: the part of a CP-SAT model that the
 * crew-assignment builders use. A model is a list of declared variables (with their domains),
 * a list of linear (in)equalities, some conditioned on a boolean variable (`OnlyEnforceIf`),
 * and an optional linear objective to maximise. An assignment gives every variable a value;
 * the meaning of a model is the set of assignments that satisfy it.
 */
module Linear {
  import opened Wrappers

  /** A decision variable, keyed by the names its builder gives it. */
  datatype Var =
    | PersonCenter(person: string, center: string)
    | PersonCrew(person: string, center: string, crew: string)
    | SameCenter(person: string, friend: string, center: string)
    | GenderBalance(center: string, crew: string)
    | HasYear(center: string, crew: string, year: string)
    | HistoryBalance(center: string, crew: string)

  datatype Term = Term(coef: int, v: Var)

  /** Sum of the terms plus a constant. */
  datatype LinExpr = LinExpr(terms: seq<Term>, constant: int)

  datatype Cmp = Eq | Le | Ge

  /** `Always`, or enforced only when the flag is 1 (`OnlyEnforceIf(flag)`) or 0 (`OnlyEnforceIf(flag.Not())`). */
  datatype Guard = Always | When(flag: Var) | Unless(flag: Var)

  datatype Constraint = Constraint(lhs: LinExpr, cmp: Cmp, rhs: LinExpr, guard: Guard)

  /** A variable created with `NewBoolVar` (domain 0..1) or `NewIntVar(lo, hi)`. */
  datatype Decl = Decl(v: Var, lo: int, hi: int)

  /** What a builder adds to a model: variables, constraints, and objective terms it returns. */
  datatype Emission = Emission(decls: seq<Decl>, cons: seq<Constraint>, terms: seq<Term>)

  type Assignment = Var -> int

  // ---------------------------------------------------------------- evaluation

  function TermsValue(ts: seq<Term>, a: Assignment): int
    decreases |ts|
  {
    if |ts| == 0 then 0 else TermsValue(ts[..|ts| - 1], a) + ts[|ts| - 1].coef * a(ts[|ts| - 1].v)
  }

  function Eval(e: LinExpr, a: Assignment): int {
    TermsValue(e.terms, a) + e.constant
  }

  predicate Active(g: Guard, a: Assignment) {
    match g
    case Always => true
    case When(f) => a(f) == 1
    case Unless(f) => a(f) == 0
  }

  predicate Holds(c: Constraint, a: Assignment) {
    Active(c.guard, a) ==>
      match c.cmp
      case Eq => Eval(c.lhs, a) == Eval(c.rhs, a)
      case Le => Eval(c.lhs, a) <= Eval(c.rhs, a)
      case Ge => Eval(c.lhs, a) >= Eval(c.rhs, a)
  }

  predicate HoldsAll(cs: seq<Constraint>, a: Assignment) {
    forall i :: 0 <= i < |cs| ==> Holds(cs[i], a)
  }

  predicate InDomain(ds: seq<Decl>, a: Assignment) {
    forall i :: 0 <= i < |ds| ==> ds[i].lo <= a(ds[i].v) <= ds[i].hi
  }

  // ---------------------------------------------------------------- expression builders

  function Var1(v: Var): LinExpr { LinExpr([Term(1, v)], 0) }

  lemma EvalVar1(v: Var, a: Assignment)
    ensures Eval(Var1(v), a) == a(v)
  {
    var ts := [Term(1, v)];
    assert ts[..0] == [];
    assert TermsValue(ts, a) == TermsValue(ts[..0], a) + ts[0].coef * a(ts[0].v);
  }

  lemma {:induction false} TermsValueAppend(xs: seq<Term>, ys: seq<Term>, a: Assignment)
    ensures TermsValue(xs + ys, a) == TermsValue(xs, a) + TermsValue(ys, a)
    decreases |ys|
  {
    if |ys| == 0 {
      assert xs + ys == xs;
    } else {
      var n := |ys| - 1;
      assert (xs + ys)[..|xs| + n] == xs + ys[..n];
      assert (xs + ys)[|xs| + n] == ys[n];
      TermsValueAppend(xs, ys[..n], a);
    }
  }

  function Const(n: int): LinExpr { LinExpr([], n) }

  function Plus(x: LinExpr, y: LinExpr): LinExpr {
    LinExpr(x.terms + y.terms, x.constant + y.constant)
  }

  /** Coefficient-1 terms, one per variable: Python's `sum(v for v in vs)`. */
  lemma EvalPlus(x: LinExpr, y: LinExpr, a: Assignment)
    ensures Eval(Plus(x, y), a) == Eval(x, a) + Eval(y, a)
  {
    TermsValueAppend(x.terms, y.terms, a);
  }

  function Ones(vs: seq<Var>): (ts: seq<Term>)
    ensures |ts| == |vs|
    decreases |vs|
  {
    if |vs| == 0 then [] else Ones(vs[..|vs| - 1]) + [Term(1, vs[|vs| - 1])]
  }

  function Sum(vs: seq<Var>): LinExpr { LinExpr(Ones(vs), 0) }

  function Equal(l: LinExpr, r: LinExpr): Constraint { Constraint(l, Eq, r, Always) }
  function AtMost(l: LinExpr, r: LinExpr): Constraint { Constraint(l, Le, r, Always) }
  function AtLeast(l: LinExpr, r: LinExpr): Constraint { Constraint(l, Ge, r, Always) }

  // ---------------------------------------------------------------- emissions

  const Nothing := Emission([], [], [])

  function Join(x: Emission, y: Emission): Emission {
    Emission(x.decls + y.decls, x.cons + y.cons, x.terms + y.terms)
  }

  function Cons1(c: Constraint): Emission { Emission([], [c], []) }

  /** The emissions of a loop over `xs`, in loop order. */
  function Concat<T>(xs: seq<T>, f: T -> Emission): Emission
    decreases |xs|
  {
    if |xs| == 0 then Nothing else Join(Concat(xs[..|xs| - 1], f), f(xs[|xs| - 1]))
  }

  lemma ConcatStep<T>(xs: seq<T>, i: nat, f: T -> Emission)
    requires i < |xs|
    ensures Concat(xs[..i + 1], f) == Join(Concat(xs[..i], f), f(xs[i]))
  {
    assert xs[..i + 1][..i] == xs[..i];
  }

  /** A model that grew by the loop's first `i` emissions and then by the next one grew by the first `i + 1`. */
  lemma GrowStep<T>(xs: seq<T>, i: nat, f: T -> Emission,
                    vars0: seq<Decl>, cons0: seq<Constraint>,
                    vars1: seq<Decl>, cons1: seq<Constraint>,
                    vars2: seq<Decl>, cons2: seq<Constraint>)
    requires i < |xs|
    requires vars1 == vars0 + Concat(xs[..i], f).decls && cons1 == cons0 + Concat(xs[..i], f).cons
    requires vars2 == vars1 + f(xs[i]).decls && cons2 == cons1 + f(xs[i]).cons
    ensures vars2 == vars0 + Concat(xs[..i + 1], f).decls && cons2 == cons0 + Concat(xs[..i + 1], f).cons
  {
    ConcatStep(xs, i, f);
  }

  /** Two loops whose bodies emit the same for every element emit the same. */
  lemma {:induction false} ConcatPointwise<T>(xs: seq<T>, f: T -> Emission, g: T -> Emission)
    requires forall i :: 0 <= i < |xs| ==> f(xs[i]) == g(xs[i])
    ensures Concat(xs, f) == Concat(xs, g)
    decreases |xs|
  {
    if |xs| > 0 {
      var n := |xs| - 1;
      assert forall i :: 0 <= i < n ==> xs[..n][i] == xs[i];
      ConcatPointwise(xs[..n], f, g);
    }
  }

  /** A model that grew by `e1` and then by `e2` grew by their join. */
  lemma GrowJoin(vars0: seq<Decl>, cons0: seq<Constraint>, e1: Emission,
                 vars1: seq<Decl>, cons1: seq<Constraint>, e2: Emission,
                 vars2: seq<Decl>, cons2: seq<Constraint>)
    requires vars1 == vars0 + e1.decls && cons1 == cons0 + e1.cons
    requires vars2 == vars1 + e2.decls && cons2 == cons1 + e2.cons
    ensures vars2 == vars0 + Join(e1, e2).decls && cons2 == cons0 + Join(e1, e2).cons
  {
  }

  lemma JoinHolds(x: Emission, y: Emission, a: Assignment)
    ensures HoldsAll(Join(x, y).cons, a) <==> HoldsAll(x.cons, a) && HoldsAll(y.cons, a)
  {
    HoldsAllAppend(x.cons, y.cons, a);
  }

  /** The same step for the objective terms a loop collects. */
  lemma CollectStep<T>(xs: seq<T>, i: nat, f: T -> Emission, ts1: seq<Term>, ts2: seq<Term>)
    requires i < |xs|
    requires ts1 == Concat(xs[..i], f).terms && ts2 == ts1 + f(xs[i]).terms
    ensures ts2 == Concat(xs[..i + 1], f).terms
  {
    ConcatStep(xs, i, f);
  }

  lemma {:induction false} ConcatHolds<T>(xs: seq<T>, f: T -> Emission, a: Assignment)
    ensures HoldsAll(Concat(xs, f).cons, a) <==> forall i :: 0 <= i < |xs| ==> HoldsAll(f(xs[i]).cons, a)
    decreases |xs|
  {
    if |xs| > 0 {
      var n := |xs| - 1;
      ConcatHolds(xs[..n], f, a);
      HoldsAllAppend(Concat(xs[..n], f).cons, f(xs[n]).cons, a);
      assert forall i :: 0 <= i < n ==> xs[..n][i] == xs[i];
    }
  }

  lemma {:induction false} ConcatTerms<T>(xs: seq<T>, f: T -> Emission, t: Term)
    ensures t in Concat(xs, f).terms <==> exists i :: 0 <= i < |xs| && t in f(xs[i]).terms
    decreases |xs|
  {
    if |xs| > 0 {
      var n := |xs| - 1;
      ConcatTerms(xs[..n], f, t);
      if t in Concat(xs, f).terms && t !in f(xs[n]).terms {
        var i :| 0 <= i < n && t in f(xs[..n][i]).terms;
        assert xs[..n][i] == xs[i];
      }
      if exists i :: 0 <= i < |xs| && t in f(xs[i]).terms {
        var i :| 0 <= i < |xs| && t in f(xs[i]).terms;
        if i < n {
          assert xs[..n][i] == xs[i];
        }
      }
    }
  }

  /** When every element emits `n` terms, the loop emits `n` per element. */
  lemma {:induction false} ConcatTermCount<T>(xs: seq<T>, f: T -> Emission, n: nat)
    requires forall x :: x in xs ==> |f(x).terms| == n
    ensures |Concat(xs, f).terms| == n * |xs|
    decreases |xs|
  {
    if |xs| > 0 {
      var k := |xs| - 1;
      assert forall x :: x in xs[..k] ==> x in xs;
      ConcatTermCount(xs[..k], f, n);
      assert xs[k] in xs;
    }
  }

  /** When every element emits `n` declarations, the loop emits `n` per element. */
  lemma {:induction false} ConcatDeclCount<T>(xs: seq<T>, f: T -> Emission, n: nat)
    requires forall x :: x in xs ==> |f(x).decls| == n
    ensures |Concat(xs, f).decls| == n * |xs|
    decreases |xs|
  {
    if |xs| > 0 {
      var k := |xs| - 1;
      assert forall x :: x in xs[..k] ==> x in xs;
      ConcatDeclCount(xs[..k], f, n);
      assert xs[k] in xs;
    }
  }

  lemma {:induction false} ConcatInDomain<T>(xs: seq<T>, f: T -> Emission, a: Assignment)
    ensures InDomain(Concat(xs, f).decls, a) <==> forall i :: 0 <= i < |xs| ==> InDomain(f(xs[i]).decls, a)
    decreases |xs|
  {
    if |xs| > 0 {
      var n := |xs| - 1;
      ConcatInDomain(xs[..n], f, a);
      InDomainAppend(Concat(xs[..n], f).decls, f(xs[n]).decls, a);
      assert forall i :: 0 <= i < n ==> xs[..n][i] == xs[i];
    }
  }

  lemma InDomainAppend(xs: seq<Decl>, ys: seq<Decl>, a: Assignment)
    ensures InDomain(xs + ys, a) <==> InDomain(xs, a) && InDomain(ys, a)
  {
    assert forall i :: 0 <= i < |xs| ==> (xs + ys)[i] == xs[i];
    assert forall i :: 0 <= i < |ys| ==> (xs + ys)[|xs| + i] == ys[i];
  }

  /** Every coefficient lies in `lo..hi`. */
  predicate CoefsWithin(ts: seq<Term>, lo: int, hi: int) {
    forall t :: t in ts ==> lo <= t.coef <= hi
  }

  lemma ConcatCoefs<T>(xs: seq<T>, f: T -> Emission, lo: int, hi: int)
    requires forall i :: 0 <= i < |xs| ==> CoefsWithin(f(xs[i]).terms, lo, hi)
    ensures CoefsWithin(Concat(xs, f).terms, lo, hi)
  {
    forall t | t in Concat(xs, f).terms
      ensures lo <= t.coef <= hi
    {
      ConcatTerms(xs, f, t);
    }
  }

  lemma TermsValue1(t: Term, a: Assignment)
    ensures TermsValue([t], a) == t.coef * a(t.v)
  {
    assert [t][..0] == [];
  }

  lemma HoldsCons1(c: Constraint, a: Assignment)
    ensures HoldsAll(Cons1(c).cons, a) <==> Holds(c, a)
  {
    assert Cons1(c).cons[0] == c;
  }

  lemma HoldsAllAppend(xs: seq<Constraint>, ys: seq<Constraint>, a: Assignment)
    ensures HoldsAll(xs + ys, a) <==> HoldsAll(xs, a) && HoldsAll(ys, a)
  {
    assert forall i :: 0 <= i < |xs| ==> (xs + ys)[i] == xs[i];
    assert forall i :: 0 <= i < |ys| ==> (xs + ys)[|xs| + i] == ys[i];
  }

  // ---------------------------------------------------------------- sums of 0/1 values

  /** Value of `sum(vs)` under `a`. */
  function Count(vs: seq<Var>, a: Assignment): int
    decreases |vs|
  {
    if |vs| == 0 then 0 else Count(vs[..|vs| - 1], a) + a(vs[|vs| - 1])
  }

  predicate Bits(vs: seq<Var>, a: Assignment) {
    forall i :: 0 <= i < |vs| ==> a(vs[i]) == 0 || a(vs[i]) == 1
  }

  /** Exactly one position of `vs` holds 1 and every other holds 0. */
  predicate ExactlyOne(vs: seq<Var>, a: Assignment) {
    exists i :: 0 <= i < |vs| && a(vs[i]) == 1 && forall j :: 0 <= j < |vs| && j != i ==> a(vs[j]) == 0
  }

  predicate Some1(vs: seq<Var>, a: Assignment) {
    exists i :: 0 <= i < |vs| && a(vs[i]) == 1
  }

  lemma {:induction false} EvalSum(vs: seq<Var>, a: Assignment)
    ensures Eval(Sum(vs), a) == Count(vs, a)
    decreases |vs|
  {
    if |vs| > 0 {
      var n := |vs| - 1;
      EvalSum(vs[..n], a);
      assert Ones(vs)[..n] == Ones(vs[..n]);
    }
  }

  lemma {:induction false} CountAppend(xs: seq<Var>, ys: seq<Var>, a: Assignment)
    ensures Count(xs + ys, a) == Count(xs, a) + Count(ys, a)
    decreases |ys|
  {
    if |ys| == 0 {
      assert xs + ys == xs;
    } else {
      var n := |ys| - 1;
      assert (xs + ys)[..|xs| + n] == xs + ys[..n];
      assert (xs + ys)[|xs| + n] == ys[n];
      CountAppend(xs, ys[..n], a);
    }
  }

  /** A sum of 0/1 values lies between 0 and the number of values. */
  lemma {:induction false} CountBounds(vs: seq<Var>, a: Assignment)
    requires Bits(vs, a)
    ensures 0 <= Count(vs, a) <= |vs|
    decreases |vs|
  {
    if |vs| > 0 {
      CountBounds(vs[..|vs| - 1], a);
    }
  }

  /** A sum of 0/1 values is at least 1 exactly when some value is 1. */
  lemma {:induction false} CountPositive(vs: seq<Var>, a: Assignment)
    requires Bits(vs, a)
    ensures Count(vs, a) >= 1 <==> Some1(vs, a)
    decreases |vs|
  {
    if |vs| > 0 {
      var n := |vs| - 1;
      CountPositive(vs[..n], a);
      CountBounds(vs[..n], a);
      if Some1(vs[..n], a) {
        var i :| 0 <= i < n && a(vs[..n][i]) == 1;
        assert vs[i] == vs[..n][i];
      }
      if Some1(vs, a) && a(vs[n]) != 1 {
        var i :| 0 <= i < |vs| && a(vs[i]) == 1;
        assert vs[..n][i] == vs[i];
      }
    }
  }

  /** A sum of 0/1 values is 0 exactly when every value is 0. */
  lemma CountZero(vs: seq<Var>, a: Assignment)
    requires Bits(vs, a)
    ensures Count(vs, a) == 0 <==> !Some1(vs, a)
  {
    CountPositive(vs, a);
    CountBounds(vs, a);
  }

  /** A sum of 0/1 values is 1 exactly when one position holds 1 and all others 0. */
  lemma {:induction false} CountOne(vs: seq<Var>, a: Assignment)
    requires Bits(vs, a)
    ensures Count(vs, a) == 1 <==> ExactlyOne(vs, a)
    decreases |vs|
  {
    if |vs| > 0 {
      var n := |vs| - 1;
      var init := vs[..n];
      assert forall j :: 0 <= j < n ==> init[j] == vs[j];
      CountOne(init, a);
      CountZero(init, a);
      CountBounds(init, a);
      if Count(vs, a) == 1 {
        if a(vs[n]) == 1 {
          assert !Some1(init, a);
          assert forall j :: 0 <= j < |vs| && j != n ==> a(vs[j]) == 0;
        } else {
          var i :| 0 <= i < n && a(init[i]) == 1 && forall j :: 0 <= j < n && j != i ==> a(init[j]) == 0;
          assert forall j :: 0 <= j < |vs| && j != i ==> a(vs[j]) == 0;
        }
      }
      if ExactlyOne(vs, a) {
        var i :| 0 <= i < |vs| && a(vs[i]) == 1 && forall j :: 0 <= j < |vs| && j != i ==> a(vs[j]) == 0;
        if i == n {
          assert !Some1(init, a);
        } else {
          assert ExactlyOne(init, a);
        }
      }
    }
  }

  // ---------------------------------------------------------------- linearisation idioms

  /** `s <= x`, `s <= y`, `s >= x + y - 1`: the linear form of `s == x AND y`. */
  function AndLink(s: Var, x: Var, y: Var): seq<Constraint> {
    [ AtMost(Var1(s), Var1(x)),
      AtMost(Var1(s), Var1(y)),
      AtLeast(Var1(s), Plus(Plus(Var1(x), Var1(y)), Const(-1))) ]
  }

  /** Over 0/1 operands the three constraints hold exactly when `s` is the conjunction. */
  lemma AndLinkMeaning(s: Var, x: Var, y: Var, a: Assignment)
    requires Bits([s, x, y], a)
    ensures HoldsAll(AndLink(s, x, y), a) <==> a(s) == (if a(x) == 1 && a(y) == 1 then 1 else 0)
  {
    assert Bits([s, x, y], a) ==> (a(s) == 0 || a(s) == 1) && (a(x) == 0 || a(x) == 1) && (a(y) == 0 || a(y) == 1) by {
      assert [s, x, y][0] == s && [s, x, y][1] == x && [s, x, y][2] == y;
    }
    EvalVar1(s, a);
    EvalVar1(x, a);
    EvalVar1(y, a);
    assert Eval(Plus(Plus(Var1(x), Var1(y)), Const(-1)), a) == a(x) + a(y) - 1 by {
      var ts := [Term(1, x), Term(1, y)];
      assert Plus(Plus(Var1(x), Var1(y)), Const(-1)).terms == ts;
      assert ts[..1] == [Term(1, x)];
    }
    var cs := AndLink(s, x, y);
    assert HoldsAll(cs, a) <==> Holds(cs[0], a) && Holds(cs[1], a) && Holds(cs[2], a);
  }

  /** `b <= x`, `b <= y`: an upper bound by two counts, the balance idiom. */
  function MinBound(b: Var, x: LinExpr, y: LinExpr): seq<Constraint> {
    [AtMost(Var1(b), x), AtMost(Var1(b), y)]
  }

  function Min(x: int, y: int): int { if x <= y then x else y }

  /**
   * Within its domain `0..ub`, a balance variable satisfies its two bounds exactly when it lies
   * between 0 and the least of the two counts and `ub`; so the largest value it can take is that
   * minimum.
   */
  lemma MinBoundMeaning(b: Var, x: LinExpr, y: LinExpr, ub: int, a: Assignment)
    ensures (0 <= a(b) <= ub && HoldsAll(MinBound(b, x, y), a))
        <==> 0 <= a(b) <= Min(Min(Eval(x, a), Eval(y, a)), ub)
  {
    EvalVar1(b, a);
    var cs := MinBound(b, x, y);
    assert HoldsAll(cs, a) <==> Holds(cs[0], a) && Holds(cs[1], a);
  }

  /** `count >= 1` when `h`, `count == 0` when not `h`: a reified presence flag. */
  function Presence(h: Var, count: LinExpr): seq<Constraint> {
    [Constraint(count, Ge, Const(1), When(h)), Constraint(count, Eq, Const(0), Unless(h))]
  }

  /** For a 0/1 flag and a non-negative count, the two guarded constraints make `h` the test `count >= 1`. */
  lemma PresenceMeaning(h: Var, count: LinExpr, a: Assignment)
    requires a(h) == 0 || a(h) == 1
    requires Eval(count, a) >= 0
    ensures HoldsAll(Presence(h, count), a) <==> a(h) == (if Eval(count, a) >= 1 then 1 else 0)
  {
    var cs := Presence(h, count);
    assert HoldsAll(cs, a) <==> Holds(cs[0], a) && Holds(cs[1], a);
  }

  // ---------------------------------------------------------------- the model object

  /** A CP-SAT model under construction: the variables declared so far, the constraints, the objective. */
  class CpModel {
    var vars: seq<Decl>
    var constraints: seq<Constraint>
    var objective: Option<LinExpr>

    constructor ()
      ensures vars == [] && constraints == [] && objective == None
    {
      vars, constraints, objective := [], [], None;
    }

    /** The model grew from (`vars0`, `cons0`) by exactly what `e` declares and constrains. */
    ghost predicate Extends(vars0: seq<Decl>, cons0: seq<Constraint>, e: Emission)
      reads this
    {
      vars == vars0 + e.decls && constraints == cons0 + e.cons
    }

    /** An assignment within every declared domain that satisfies every constraint. */
    ghost predicate Feasible(a: Assignment)
      reads this
    {
      InDomain(vars, a) && HoldsAll(constraints, a)
    }

    method NewBoolVar(v: Var) returns (x: Var)
      modifies this
      ensures x == v
      ensures vars == old(vars) + [Decl(v, 0, 1)]
      ensures constraints == old(constraints) && objective == old(objective)
    {
      vars := vars + [Decl(v, 0, 1)];
      x := v;
    }

    method NewIntVar(lo: int, hi: int, v: Var) returns (x: Var)
      modifies this
      ensures x == v
      ensures vars == old(vars) + [Decl(v, lo, hi)]
      ensures constraints == old(constraints) && objective == old(objective)
    {
      vars := vars + [Decl(v, lo, hi)];
      x := v;
    }

    method Add(c: Constraint)
      modifies this
      ensures constraints == old(constraints) + [c]
      ensures vars == old(vars) && objective == old(objective)
    {
      constraints := constraints + [c];
    }

    method Maximize(e: LinExpr)
      modifies this
      ensures objective == Some(e)
      ensures vars == old(vars) && constraints == old(constraints)
    {
      objective := Some(e);
    }
  }
}
