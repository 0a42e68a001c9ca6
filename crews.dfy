/**
 * The per-crew constraints: every crew's head count (youth plus its adult roster) lies between
 * the configured bounds, a youth is only in a crew of its center, and no youth is placed with
 * an adult who led them before.
 */
module CrewConstraints {
  import opened Linear
  import opened Models
  import opened Config
  import opened Variables

  // ================================================================ crew size

  /** Youth (role 'Youth') in crew `k` plus the adults on its roster. */
  function Load(ps: seq<Youth>, c: CenterRec, k: CrewRec): LinExpr {
    Plus(Sum(Assigned(ps, Role("Youth"), c.name, k.name)), Const(|k.adults|))
  }

  function CrewLinkOf(c: CenterRec, k: CrewRec, y: Youth): Emission {
    if y.role == "Youth" then
      Cons1(AtMost(Var1(PersonCrew(y.name, c.name, k.name)), Var1(PersonCenter(y.name, c.name))))
    else Nothing
  }

  function CrewLink(c: CenterRec, k: CrewRec): Youth -> Emission {
    (y: Youth) => CrewLinkOf(c, k, y)
  }

  function CrewSizeAtOf(cfg: Config, ps: seq<Youth>, c: CenterRec, k: CrewRec): Emission {
    Join(Emission([], [AtLeast(Load(ps, c, k), Const(cfg.minCrewSize)),
                       AtMost(Load(ps, c, k), Const(cfg.maxCrewSize))], []),
         Concat(ps, CrewLink(c, k)))
  }

  function CrewSizeAt(cfg: Config, ps: seq<Youth>, c: CenterRec): CrewRec -> Emission {
    (k: CrewRec) => CrewSizeAtOf(cfg, ps, c, k)
  }

  function CrewSizeCenterOf(cfg: Config, ps: seq<Youth>, c: CenterRec): Emission {
    Concat(c.crews, CrewSizeAt(cfg, ps, c))
  }

  function CrewSizeCenter(cfg: Config, ps: seq<Youth>): CenterRec -> Emission {
    (c: CenterRec) => CrewSizeCenterOf(cfg, ps, c)
  }

  function CrewSize(cfg: Config, ps: seq<Youth>, centers: seq<CenterRec>): Emission {
    Concat(centers, CrewSizeCenter(cfg, ps))
  }

  /** The crew's head count is within the bounds, and each youth in the crew is at its center. */
  ghost predicate CrewSizeOk(cfg: Config, ps: seq<Youth>, c: CenterRec, k: CrewRec, a: Assignment) {
    && cfg.minCrewSize <= Count(Assigned(ps, Role("Youth"), c.name, k.name), a) + |k.adults| <= cfg.maxCrewSize
    && forall i :: 0 <= i < |ps| && ps[i].role == "Youth" && a(PersonCrew(ps[i].name, c.name, k.name)) == 1 ==>
         a(PersonCenter(ps[i].name, c.name)) == 1
  }

  ghost predicate CrewSizeCenterOk(cfg: Config, ps: seq<Youth>, c: CenterRec, a: Assignment) {
    forall l :: 0 <= l < |c.crews| ==> CrewSizeOk(cfg, ps, c, c.crews[l], a)
  }

  lemma EvalLoad(ps: seq<Youth>, c: CenterRec, k: CrewRec, a: Assignment)
    ensures Eval(Load(ps, c, k), a) == Count(Assigned(ps, Role("Youth"), c.name, k.name), a) + |k.adults|
  {
    var vs := Assigned(ps, Role("Youth"), c.name, k.name);
    EvalPlus(Sum(vs), Const(|k.adults|), a);
    EvalSum(vs, a);
  }

  lemma CrewLinkMeaning(c: CenterRec, k: CrewRec, ps: seq<Youth>, a: Assignment)
    requires Boolean(a)
    ensures HoldsAll(Concat(ps, CrewLink(c, k)).cons, a) <==>
            forall i :: 0 <= i < |ps| && ps[i].role == "Youth" && a(PersonCrew(ps[i].name, c.name, k.name)) == 1 ==>
              a(PersonCenter(ps[i].name, c.name)) == 1
  {
    ConcatHolds(ps, CrewLink(c, k), a);
    forall i | 0 <= i < |ps|
      ensures HoldsAll(CrewLink(c, k)(ps[i]).cons, a) <==>
              (ps[i].role == "Youth" && a(PersonCrew(ps[i].name, c.name, k.name)) == 1 ==>
                 a(PersonCenter(ps[i].name, c.name)) == 1)
    {
      var x, z := PersonCrew(ps[i].name, c.name, k.name), PersonCenter(ps[i].name, c.name);
      HoldsCons1(AtMost(Var1(x), Var1(z)), a);
      EvalVar1(x, a);
      EvalVar1(z, a);
    }
  }

  lemma CrewSizeAtMeaning(cfg: Config, ps: seq<Youth>, c: CenterRec, k: CrewRec, a: Assignment)
    requires Boolean(a)
    ensures HoldsAll(CrewSizeAtOf(cfg, ps, c, k).cons, a) <==> CrewSizeOk(cfg, ps, c, k, a)
  {
    var bounds := [AtLeast(Load(ps, c, k), Const(cfg.minCrewSize)), AtMost(Load(ps, c, k), Const(cfg.maxCrewSize))];
    HoldsAllAppend(bounds, Concat(ps, CrewLink(c, k)).cons, a);
    assert HoldsAll(bounds, a) <==> Holds(bounds[0], a) && Holds(bounds[1], a);
    EvalLoad(ps, c, k, a);
    CrewLinkMeaning(c, k, ps, a);
  }

  lemma CrewSizeCenterMeaning(cfg: Config, ps: seq<Youth>, c: CenterRec, a: Assignment)
    requires Boolean(a)
    ensures HoldsAll(CrewSizeCenterOf(cfg, ps, c).cons, a) <==> CrewSizeCenterOk(cfg, ps, c, a)
  {
    ConcatHolds(c.crews, CrewSizeAt(cfg, ps, c), a);
    forall l | 0 <= l < |c.crews|
      ensures HoldsAll(CrewSizeAt(cfg, ps, c)(c.crews[l]).cons, a) <==> CrewSizeOk(cfg, ps, c, c.crews[l], a)
    {
      CrewSizeAtMeaning(cfg, ps, c, c.crews[l], a);
    }
  }

  /**
   * Over 0/1 values, the crew-size constraints hold exactly when every crew's youth count plus
   * its roster size lies within `min_crew_size..max_crew_size`, and every youth in a crew is at
   * that crew's center.
   */
  lemma CrewSizeMeaning(cfg: Config, ps: seq<Youth>, centers: seq<CenterRec>, a: Assignment)
    requires Boolean(a)
    ensures HoldsAll(CrewSize(cfg, ps, centers).cons, a) <==>
            forall j :: 0 <= j < |centers| ==> CrewSizeCenterOk(cfg, ps, centers[j], a)
  {
    ConcatHolds(centers, CrewSizeCenter(cfg, ps), a);
    forall j | 0 <= j < |centers|
      ensures HoldsAll(CrewSizeCenter(cfg, ps)(centers[j]).cons, a) <==> CrewSizeCenterOk(cfg, ps, centers[j], a)
    {
      CrewSizeCenterMeaning(cfg, ps, centers[j], a);
    }
  }

  /** Only role-'Youth' persons contribute links, so dropping the others drops nothing. */
  lemma {:induction false} CrewLinkRegular(c: CenterRec, k: CrewRec, ps: seq<Youth>)
    ensures Concat(RegularYouth(ps), CrewLink(c, k)) == Concat(ps, CrewLink(c, k))
    decreases |ps|
  {
    if |ps| > 0 {
      var n := |ps| - 1;
      CrewLinkRegular(c, k, ps[..n]);
      var rs := RegularYouth(ps[..n]);
      if ps[n].role == "Youth" {
        assert RegularYouth(ps) == rs + [ps[n]];
        assert (rs + [ps[n]])[..|rs|] == rs;
      } else {
        assert RegularYouth(ps) == rs;
        var e := Concat(ps[..n], CrewLink(c, k));
        assert Join(e, Nothing) == e;
      }
    }
  }

  /** The crew-size constraints are the same whether given every person or only those with role 'Youth'. */
  lemma CrewSizeRegular(cfg: Config, ps: seq<Youth>, centers: seq<CenterRec>)
    ensures CrewSize(cfg, RegularYouth(ps), centers) == CrewSize(cfg, ps, centers)
  {
    var rs := RegularYouth(ps);
    forall j | 0 <= j < |centers|
      ensures CrewSizeCenter(cfg, rs)(centers[j]) == CrewSizeCenter(cfg, ps)(centers[j])
    {
      var c := centers[j];
      forall l | 0 <= l < |c.crews|
        ensures CrewSizeAt(cfg, rs, c)(c.crews[l]) == CrewSizeAt(cfg, ps, c)(c.crews[l])
      {
        AssignedRegular(ps, c.name, c.crews[l].name);
        CrewLinkRegular(c, c.crews[l], ps);
      }
      ConcatPointwise(c.crews, CrewSizeAt(cfg, rs, c), CrewSizeAt(cfg, ps, c));
    }
    ConcatPointwise(centers, CrewSizeCenter(cfg, rs), CrewSizeCenter(cfg, ps));
  }

  method AddCrewLinks(m: CpModel, c: CenterRec, k: CrewRec, ps: seq<Youth>)
    modifies m
    ensures m.Extends(old(m.vars), old(m.constraints), Concat(ps, CrewLink(c, k)))
    ensures m.objective == old(m.objective)
  {
    ghost var vars0, cons0 := m.vars, m.constraints;
    for i := 0 to |ps|
      invariant m.Extends(vars0, cons0, Concat(ps[..i], CrewLink(c, k)))
      invariant m.objective == old(m.objective)
    {
      var y := ps[i];
      ghost var vars1, cons1 := m.vars, m.constraints;
      if y.role == "Youth" {
        m.Add(AtMost(Var1(PersonCrew(y.name, c.name, k.name)), Var1(PersonCenter(y.name, c.name))));
      }
      GrowStep(ps, i, CrewLink(c, k), vars0, cons0, vars1, cons1, m.vars, m.constraints);
    }
    assert ps[..|ps|] == ps;
  }

  method AddCrewSizeAt(m: CpModel, cfg: Config, ps: seq<Youth>, c: CenterRec, k: CrewRec)
    modifies m
    ensures m.Extends(old(m.vars), old(m.constraints), CrewSizeAtOf(cfg, ps, c, k))
    ensures m.objective == old(m.objective)
  {
    var load := Plus(Sum(Assigned(ps, Role("Youth"), c.name, k.name)), Const(|k.adults|));
    m.Add(AtLeast(load, Const(cfg.minCrewSize)));
    m.Add(AtMost(load, Const(cfg.maxCrewSize)));
    AddCrewLinks(m, c, k, ps);
  }

  method AddCrewSizeCenter(m: CpModel, cfg: Config, ps: seq<Youth>, c: CenterRec)
    modifies m
    ensures m.Extends(old(m.vars), old(m.constraints), CrewSizeCenterOf(cfg, ps, c))
    ensures m.objective == old(m.objective)
  {
    ghost var vars0, cons0 := m.vars, m.constraints;
    for l := 0 to |c.crews|
      invariant m.Extends(vars0, cons0, Concat(c.crews[..l], CrewSizeAt(cfg, ps, c)))
      invariant m.objective == old(m.objective)
    {
      ghost var vars1, cons1 := m.vars, m.constraints;
      AddCrewSizeAt(m, cfg, ps, c, c.crews[l]);
      GrowStep(c.crews, l, CrewSizeAt(cfg, ps, c), vars0, cons0, vars1, cons1, m.vars, m.constraints);
    }
    assert c.crews[..|c.crews|] == c.crews;
  }

  method EnforceCrewSize(m: CpModel, cfg: Config, ps: seq<Youth>, centers: seq<CenterRec>)
    modifies m
    ensures m.Extends(old(m.vars), old(m.constraints), CrewSize(cfg, ps, centers))
    ensures m.objective == old(m.objective)
  {
    ghost var vars0, cons0 := m.vars, m.constraints;
    for j := 0 to |centers|
      invariant m.Extends(vars0, cons0, Concat(centers[..j], CrewSizeCenter(cfg, ps)))
      invariant m.objective == old(m.objective)
    {
      ghost var vars1, cons1 := m.vars, m.constraints;
      AddCrewSizeCenter(m, cfg, ps, centers[j]);
      GrowStep(centers, j, CrewSizeCenter(cfg, ps), vars0, cons0, vars1, cons1, m.vars, m.constraints);
    }
    assert centers[..|centers|] == centers;
  }

  // ================================================================ past leaders

  /** One of `y`'s past leaders is on crew `k`'s adult roster. */
  predicate LedBy(y: Youth, k: CrewRec) {
    exists t :: 0 <= t < |y.pastLeaders| && y.pastLeaders[t] in k.adults
  }

  function LeaderCrewOf(y: Youth, c: CenterRec, k: CrewRec): Emission {
    if LedBy(y, k) then Cons1(Equal(Var1(PersonCrew(y.name, c.name, k.name)), Const(0))) else Nothing
  }

  function LeaderCrew(y: Youth, c: CenterRec): CrewRec -> Emission {
    (k: CrewRec) => LeaderCrewOf(y, c, k)
  }

  function LeaderCenterOf(y: Youth, c: CenterRec): Emission {
    Concat(c.crews, LeaderCrew(y, c))
  }

  function LeaderCenter(y: Youth): CenterRec -> Emission {
    (c: CenterRec) => LeaderCenterOf(y, c)
  }

  /** Nothing for a person without past leaders. */
  function PastLeaderOf(y: Youth, centers: seq<CenterRec>): Emission {
    if |y.pastLeaders| == 0 then Nothing else Concat(centers, LeaderCenter(y))
  }

  function PastLeaderFor(centers: seq<CenterRec>): Youth -> Emission {
    (y: Youth) => PastLeaderOf(y, centers)
  }

  function PastLeader(ps: seq<Youth>, centers: seq<CenterRec>): Emission {
    Concat(ps, PastLeaderFor(centers))
  }

  /** `y` is in no crew at `c` whose roster holds one of its past leaders. */
  ghost predicate NotLedAt(y: Youth, c: CenterRec, a: Assignment) {
    forall l :: 0 <= l < |c.crews| && LedBy(y, c.crews[l]) ==> a(PersonCrew(y.name, c.name, c.crews[l].name)) == 0
  }

  ghost predicate NotLed(y: Youth, centers: seq<CenterRec>, a: Assignment) {
    forall j :: 0 <= j < |centers| ==> NotLedAt(y, centers[j], a)
  }

  lemma NotLedAtMeaning(y: Youth, c: CenterRec, a: Assignment)
    ensures HoldsAll(LeaderCenterOf(y, c).cons, a) <==> NotLedAt(y, c, a)
  {
    ConcatHolds(c.crews, LeaderCrew(y, c), a);
    forall l | 0 <= l < |c.crews|
      ensures HoldsAll(LeaderCrew(y, c)(c.crews[l]).cons, a) <==>
              (LedBy(y, c.crews[l]) ==> a(PersonCrew(y.name, c.name, c.crews[l].name)) == 0)
    {
      var x := PersonCrew(y.name, c.name, c.crews[l].name);
      HoldsCons1(Equal(Var1(x), Const(0)), a);
      EvalVar1(x, a);
    }
  }

  /** Skipping a person without past leaders loses nothing: no crew is led by one of them. */
  lemma PastLeaderOfMeaning(y: Youth, centers: seq<CenterRec>, a: Assignment)
    ensures HoldsAll(PastLeaderOf(y, centers).cons, a) <==> NotLed(y, centers, a)
  {
    if |y.pastLeaders| > 0 {
      ConcatHolds(centers, LeaderCenter(y), a);
      forall j | 0 <= j < |centers|
        ensures HoldsAll(LeaderCenter(y)(centers[j]).cons, a) <==> NotLedAt(y, centers[j], a)
      {
        NotLedAtMeaning(y, centers[j], a);
      }
    }
  }

  /** The past-leader constraints hold exactly when no person is in a crew with one of their past leaders. */
  lemma PastLeaderMeaning(ps: seq<Youth>, centers: seq<CenterRec>, a: Assignment)
    ensures HoldsAll(PastLeader(ps, centers).cons, a) <==> forall i :: 0 <= i < |ps| ==> NotLed(ps[i], centers, a)
  {
    ConcatHolds(ps, PastLeaderFor(centers), a);
    forall i | 0 <= i < |ps|
      ensures HoldsAll(PastLeaderFor(centers)(ps[i]).cons, a) <==> NotLed(ps[i], centers, a)
    {
      PastLeaderOfMeaning(ps[i], centers, a);
    }
  }

  method AddLeaderCenter(m: CpModel, y: Youth, c: CenterRec)
    modifies m
    ensures m.Extends(old(m.vars), old(m.constraints), LeaderCenterOf(y, c))
    ensures m.objective == old(m.objective)
  {
    ghost var vars0, cons0 := m.vars, m.constraints;
    for l := 0 to |c.crews|
      invariant m.Extends(vars0, cons0, Concat(c.crews[..l], LeaderCrew(y, c)))
      invariant m.objective == old(m.objective)
    {
      var k := c.crews[l];
      ghost var vars1, cons1 := m.vars, m.constraints;
      if LedBy(y, k) {
        m.Add(Equal(Var1(PersonCrew(y.name, c.name, k.name)), Const(0)));
      }
      GrowStep(c.crews, l, LeaderCrew(y, c), vars0, cons0, vars1, cons1, m.vars, m.constraints);
    }
    assert c.crews[..|c.crews|] == c.crews;
  }

  method AddPastLeaderOf(m: CpModel, y: Youth, centers: seq<CenterRec>)
    modifies m
    ensures m.Extends(old(m.vars), old(m.constraints), PastLeaderOf(y, centers))
    ensures m.objective == old(m.objective)
  {
    if |y.pastLeaders| > 0 {
      ghost var vars0, cons0 := m.vars, m.constraints;
      for j := 0 to |centers|
        invariant m.Extends(vars0, cons0, Concat(centers[..j], LeaderCenter(y)))
        invariant m.objective == old(m.objective)
      {
        ghost var vars1, cons1 := m.vars, m.constraints;
        AddLeaderCenter(m, y, centers[j]);
        GrowStep(centers, j, LeaderCenter(y), vars0, cons0, vars1, cons1, m.vars, m.constraints);
      }
      assert centers[..|centers|] == centers;
    } else {
      assert m.Extends(old(m.vars), old(m.constraints), Nothing);
    }
  }

  method EnforcePastLeader(m: CpModel, ps: seq<Youth>, centers: seq<CenterRec>)
    modifies m
    ensures m.Extends(old(m.vars), old(m.constraints), PastLeader(ps, centers))
    ensures m.objective == old(m.objective)
  {
    ghost var vars0, cons0 := m.vars, m.constraints;
    for i := 0 to |ps|
      invariant m.Extends(vars0, cons0, Concat(ps[..i], PastLeaderFor(centers)))
      invariant m.objective == old(m.objective)
    {
      ghost var vars1, cons1 := m.vars, m.constraints;
      AddPastLeaderOf(m, ps[i], centers);
      GrowStep(ps, i, PastLeaderFor(centers), vars0, cons0, vars1, cons1, m.vars, m.constraints);
    }
    assert ps[..|ps|] == ps;
  }
}
