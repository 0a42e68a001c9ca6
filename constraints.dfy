/**
 * The hard constraints of the crew-assignment model. Each builder walks the roster, the
 * centers and their crews and appends linear constraints to the model. For each builder a
 * function gives exactly what it appends, and a lemma says which 0/1 assignments satisfy it.
 */
module Constraints {
  import opened Wrappers
  import opened Linear
  import opened Models
  import opened Config
  import opened Variables

  // ================================================================ one crew per youth

  function PinCrewOf(p: string, c: CenterRec, k: CrewRec): Emission {
    Cons1(Equal(Var1(PersonCrew(p, c.name, k.name)), Const(if p in k.adults then 1 else 0)))
  }

  function PinCrew(p: string, c: CenterRec): CrewRec -> Emission {
    (k: CrewRec) => PinCrewOf(p, c, k)
  }

  function PinCenterOf(p: string, c: CenterRec): Emission {
    Concat(c.crews, PinCrew(p, c))
  }

  function PinCenter(p: string): CenterRec -> Emission {
    (c: CenterRec) => PinCenterOf(p, c)
  }

  /** A youth's crew variables sum to 1; anyone else is pinned to the rosters that list them. */
  function OneCrewOf(y: Youth, centers: seq<CenterRec>): Emission {
    if y.role == "Youth" then Cons1(Equal(Sum(CrewVars(y.name, centers)), Const(1)))
    else Concat(centers, PinCenter(y.name))
  }

  function OneCrewFor(centers: seq<CenterRec>): Youth -> Emission {
    (y: Youth) => OneCrewOf(y, centers)
  }

  function OneCrewPerYouth(ps: seq<Youth>, centers: seq<CenterRec>): Emission {
    Concat(ps, OneCrewFor(centers))
  }

  /** `p`'s crew variable at center `c` is 1 at every crew whose adults list `p` and 0 at every other crew. */
  ghost predicate PinnedAt(p: string, c: CenterRec, a: Assignment) {
    forall l :: 0 <= l < |c.crews| ==>
      a(PersonCrew(p, c.name, c.crews[l].name)) == if p in c.crews[l].adults then 1 else 0
  }

  ghost predicate Pinned(p: string, centers: seq<CenterRec>, a: Assignment) {
    forall j :: 0 <= j < |centers| ==> PinnedAt(p, centers[j], a)
  }

  ghost predicate OneCrewRule(y: Youth, centers: seq<CenterRec>, a: Assignment) {
    if y.role == "Youth" then ExactlyOne(CrewVars(y.name, centers), a) else Pinned(y.name, centers, a)
  }

  lemma PinCenterMeaning(p: string, c: CenterRec, a: Assignment)
    ensures HoldsAll(PinCenterOf(p, c).cons, a) <==> PinnedAt(p, c, a)
  {
    ConcatHolds(c.crews, PinCrew(p, c), a);
    forall l | 0 <= l < |c.crews|
      ensures HoldsAll(PinCrew(p, c)(c.crews[l]).cons, a) <==>
              a(PersonCrew(p, c.name, c.crews[l].name)) == if p in c.crews[l].adults then 1 else 0
    {
      var k := c.crews[l];
      HoldsCons1(Equal(Var1(PersonCrew(p, c.name, k.name)), Const(if p in k.adults then 1 else 0)), a);
      EvalVar1(PersonCrew(p, c.name, k.name), a);
    }
  }

  lemma PinnedMeaning(p: string, centers: seq<CenterRec>, a: Assignment)
    ensures HoldsAll(Concat(centers, PinCenter(p)).cons, a) <==> Pinned(p, centers, a)
  {
    ConcatHolds(centers, PinCenter(p), a);
    forall j | 0 <= j < |centers|
      ensures HoldsAll(PinCenter(p)(centers[j]).cons, a) <==> PinnedAt(p, centers[j], a)
    {
      PinCenterMeaning(p, centers[j], a);
    }
  }

  lemma OneCrewOfMeaning(y: Youth, centers: seq<CenterRec>, a: Assignment)
    requires Boolean(a)
    ensures HoldsAll(OneCrewOf(y, centers).cons, a) <==> OneCrewRule(y, centers, a)
  {
    if y.role == "Youth" {
      var vs := CrewVars(y.name, centers);
      HoldsCons1(Equal(Sum(vs), Const(1)), a);
      EvalSum(vs, a);
      BooleanBits(vs, a);
      CountOne(vs, a);
    } else {
      PinnedMeaning(y.name, centers, a);
    }
  }

  /**
   * Over 0/1 values, the constraints give every person with role 'Youth' exactly one crew
   * among all (center, crew) pairs, and pin every other person to the crews listing them.
   */
  lemma OneCrewPerYouthMeaning(ps: seq<Youth>, centers: seq<CenterRec>, a: Assignment)
    requires Boolean(a)
    ensures HoldsAll(OneCrewPerYouth(ps, centers).cons, a) <==>
            forall i :: 0 <= i < |ps| ==> OneCrewRule(ps[i], centers, a)
  {
    ConcatHolds(ps, OneCrewFor(centers), a);
    forall i | 0 <= i < |ps|
      ensures HoldsAll(OneCrewFor(centers)(ps[i]).cons, a) <==> OneCrewRule(ps[i], centers, a)
    {
      OneCrewOfMeaning(ps[i], centers, a);
    }
  }

  /** Pins `p` at every crew of center `c`. */
  method AddPinsAtCenter(m: CpModel, p: string, c: CenterRec)
    modifies m
    ensures m.Extends(old(m.vars), old(m.constraints), PinCenterOf(p, c))
    ensures m.objective == old(m.objective)
  {
    ghost var vars0, cons0 := m.vars, m.constraints;
    for l := 0 to |c.crews|
      invariant m.Extends(vars0, cons0, Concat(c.crews[..l], PinCrew(p, c)))
      invariant m.objective == old(m.objective)
    {
      var k := c.crews[l];
      if p in k.adults {
        m.Add(Equal(Var1(PersonCrew(p, c.name, k.name)), Const(1)));
      } else {
        m.Add(Equal(Var1(PersonCrew(p, c.name, k.name)), Const(0)));
      }
      ConcatStep(c.crews, l, PinCrew(p, c));
    }
    assert c.crews[..|c.crews|] == c.crews;
  }

  /** Pins `p` at every crew of every center. */
  method AddPins(m: CpModel, p: string, centers: seq<CenterRec>)
    modifies m
    ensures m.Extends(old(m.vars), old(m.constraints), Concat(centers, PinCenter(p)))
    ensures m.objective == old(m.objective)
  {
    ghost var vars0, cons0 := m.vars, m.constraints;
    for j := 0 to |centers|
      invariant m.Extends(vars0, cons0, Concat(centers[..j], PinCenter(p)))
      invariant m.objective == old(m.objective)
    {
      ghost var vars1, cons1 := m.vars, m.constraints;
      AddPinsAtCenter(m, p, centers[j]);
      GrowStep(centers, j, PinCenter(p), vars0, cons0, vars1, cons1, m.vars, m.constraints);
    }
    assert centers[..|centers|] == centers;
  }

  /**
   * Adds, for every person, either "exactly one crew" (role 'Youth') or the pins to the
   * rosters (anyone else), in roster order.
   */
  method AddOneCrewPerYouth(m: CpModel, ps: seq<Youth>, centers: seq<CenterRec>)
    modifies m
    ensures m.Extends(old(m.vars), old(m.constraints), OneCrewPerYouth(ps, centers))
    ensures m.objective == old(m.objective)
  {
    ghost var vars0, cons0 := m.vars, m.constraints;
    for i := 0 to |ps|
      invariant m.Extends(vars0, cons0, Concat(ps[..i], OneCrewFor(centers)))
      invariant m.objective == old(m.objective)
    {
      var y := ps[i];
      ghost var vars1, cons1 := m.vars, m.constraints;
      if y.role == "Youth" {
        m.Add(Equal(Sum(CrewVars(y.name, centers)), Const(1)));
      } else {
        AddPins(m, y.name, centers);
      }
      GrowStep(ps, i, OneCrewFor(centers), vars0, cons0, vars1, cons1, m.vars, m.constraints);
    }
    assert ps[..|ps|] == ps;
  }

  // ================================================================ crew/center link

  function LinkAt(p: string, c: CenterRec): Emission {
    Cons1(Equal(Var1(PersonCenter(p, c.name)), Sum(CenterCrewVars(p, c))))
  }

  function LinkCenter(p: string): CenterRec -> Emission {
    (c: CenterRec) => LinkAt(p, c)
  }

  function LinkOf(p: string, centers: seq<CenterRec>): Emission {
    Concat(centers, LinkCenter(p))
  }

  function LinkFor(centers: seq<CenterRec>): Youth -> Emission {
    (y: Youth) => LinkOf(y.name, centers)
  }

  function LinkCrewAndCenter(ps: seq<Youth>, centers: seq<CenterRec>): Emission {
    Concat(ps, LinkFor(centers))
  }

  /** `p`'s center variable equals the sum of its crew variables at that center, at every center. */
  ghost predicate Linked(p: string, centers: seq<CenterRec>, a: Assignment) {
    forall j :: 0 <= j < |centers| ==>
      a(PersonCenter(p, centers[j].name)) == Count(CenterCrewVars(p, centers[j]), a)
  }

  lemma LinkOfMeaning(p: string, centers: seq<CenterRec>, a: Assignment)
    ensures HoldsAll(LinkOf(p, centers).cons, a) <==> Linked(p, centers, a)
  {
    ConcatHolds(centers, LinkCenter(p), a);
    forall j | 0 <= j < |centers|
      ensures HoldsAll(LinkCenter(p)(centers[j]).cons, a) <==>
              a(PersonCenter(p, centers[j].name)) == Count(CenterCrewVars(p, centers[j]), a)
    {
      var c := centers[j];
      HoldsCons1(Equal(Var1(PersonCenter(p, c.name)), Sum(CenterCrewVars(p, c))), a);
      EvalVar1(PersonCenter(p, c.name), a);
      EvalSum(CenterCrewVars(p, c), a);
    }
  }

  /** The link constraints hold exactly when every person's center variables are the per-center crew sums. */
  lemma LinkCrewAndCenterMeaning(ps: seq<Youth>, centers: seq<CenterRec>, a: Assignment)
    ensures HoldsAll(LinkCrewAndCenter(ps, centers).cons, a) <==>
            forall i :: 0 <= i < |ps| ==> Linked(ps[i].name, centers, a)
  {
    ConcatHolds(ps, LinkFor(centers), a);
    forall i | 0 <= i < |ps|
      ensures HoldsAll(LinkFor(centers)(ps[i]).cons, a) <==> Linked(ps[i].name, centers, a)
    {
      LinkOfMeaning(ps[i].name, centers, a);
    }
  }

  /** Links `p`'s center variable to its crew variables, at every center. */
  method AddLinks(m: CpModel, p: string, centers: seq<CenterRec>)
    modifies m
    ensures m.Extends(old(m.vars), old(m.constraints), LinkOf(p, centers))
    ensures m.objective == old(m.objective)
  {
    ghost var vars0, cons0 := m.vars, m.constraints;
    for j := 0 to |centers|
      invariant m.Extends(vars0, cons0, Concat(centers[..j], LinkCenter(p)))
      invariant m.objective == old(m.objective)
    {
      var c := centers[j];
      m.Add(Equal(Var1(PersonCenter(p, c.name)), Sum(CenterCrewVars(p, c))));
      ConcatStep(centers, j, LinkCenter(p));
    }
    assert centers[..|centers|] == centers;
  }

  method AddLinkCrewAndCenterVars(m: CpModel, ps: seq<Youth>, centers: seq<CenterRec>)
    modifies m
    ensures m.Extends(old(m.vars), old(m.constraints), LinkCrewAndCenter(ps, centers))
    ensures m.objective == old(m.objective)
  {
    ghost var vars0, cons0 := m.vars, m.constraints;
    for i := 0 to |ps|
      invariant m.Extends(vars0, cons0, Concat(ps[..i], LinkFor(centers)))
      invariant m.objective == old(m.objective)
    {
      AddLinks(m, ps[i].name, centers);
      ConcatStep(ps, i, LinkFor(centers));
    }
    assert ps[..|ps|] == ps;
  }

  /** Summing the center variables counts every crew variable once. */
  lemma {:induction false} CenterSumIsCrewSum(p: string, cs: seq<CenterRec>, a: Assignment)
    requires Linked(p, cs, a)
    ensures Count(CenterVars(p, cs), a) == Count(CrewVars(p, cs), a)
    decreases |cs|
  {
    if |cs| > 0 {
      var n := |cs| - 1;
      assert Linked(p, cs[..n], a) by {
        forall j | 0 <= j < n ensures cs[..n][j] == cs[j] { }
      }
      CenterSumIsCrewSum(p, cs[..n], a);
      assert CenterVars(p, cs)[..n] == CenterVars(p, cs[..n]);
      CountAppend(CrewVars(p, cs[..n]), CenterCrewVars(p, cs[n]), a);
    }
  }

  /** One center's crew sum is at most the sum over all crews, when all values are 0/1. */
  lemma {:induction false} CenterCountBound(p: string, cs: seq<CenterRec>, j: nat, a: Assignment)
    requires j < |cs| && Bits(CrewVars(p, cs), a)
    ensures 0 <= Count(CenterCrewVars(p, cs[j]), a) <= Count(CrewVars(p, cs), a)
    decreases |cs|
  {
    var n := |cs| - 1;
    var init, last := CrewVars(p, cs[..n]), CenterCrewVars(p, cs[n]);
    BitsAppend(init, last, a);
    CountAppend(init, last, a);
    CountBounds(init, a);
    CountBounds(last, a);
    if j < n {
      CenterCountBound(p, cs[..n], j, a);
      assert cs[..n][j] == cs[j];
    }
  }

  /**
   * A person with role 'Youth' whose crew variables satisfy "exactly one crew" and the link
   * constraints has exactly one center variable equal to 1.
   */
  lemma OneCenterPerYouth(y: Youth, centers: seq<CenterRec>, a: Assignment)
    requires Boolean(a) && y.role == "Youth"
    requires HoldsAll(OneCrewOf(y, centers).cons, a)
    requires HoldsAll(LinkOf(y.name, centers).cons, a)
    ensures ExactlyOne(CenterVars(y.name, centers), a)
  {
    var crews := CrewVars(y.name, centers);
    OneCrewOfMeaning(y, centers, a);
    LinkOfMeaning(y.name, centers, a);
    CenterSumIsCrewSum(y.name, centers, a);
    BooleanBits(crews, a);
    BooleanBits(CenterVars(y.name, centers), a);
    CountOne(crews, a);
    CountOne(CenterVars(y.name, centers), a);
  }
}
