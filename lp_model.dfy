/**
 * The model assembly: declare a 0/1 variable per (person, center) and per (person, center,
 * crew), add the hard constraints in a fixed order, collect the objective terms and maximise
 * their sum.
 */
module LpModel {
  import opened Wrappers
  import opened Linear
  import opened Models
  import opened Config
  import opened Variables
  import opened Constraints
  import opened FamilyConstraints
  import opened FriendConstraints
  import opened CrewConstraints
  import opened Objectives

  // ================================================================ variables

  function CenterNames(cs: seq<CenterRec>): (ns: seq<string>)
    ensures |ns| == |cs| && forall j :: 0 <= j < |cs| ==> ns[j] == cs[j].name
  {
    seq(|cs|, j requires 0 <= j < |cs| => cs[j].name)
  }

  function CrewNames(c: CenterRec): (ns: seq<string>)
    ensures |ns| == |c.crews| && forall l :: 0 <= l < |c.crews| ==> ns[l] == c.crews[l].name
  {
    seq(|c.crews|, l requires 0 <= l < |c.crews| => c.crews[l].name)
  }

  function CenterDecl(p: string): CenterRec -> Emission {
    (c: CenterRec) => Emission([Decl(PersonCenter(p, c.name), 0, 1)], [], [])
  }

  function CenterLayoutFor(centers: seq<CenterRec>): Youth -> Emission {
    (y: Youth) => Concat(centers, CenterDecl(y.name))
  }

  /** `person_center[p, c]` for every person, then every center. */
  function CenterLayout(ps: seq<Youth>, centers: seq<CenterRec>): Emission {
    Concat(ps, CenterLayoutFor(centers))
  }

  function CrewDecl(c: CenterRec, k: CrewRec): Youth -> Emission {
    (y: Youth) => Emission([Decl(PersonCrew(y.name, c.name, k.name), 0, 1)], [], [])
  }

  function CrewDeclsAt(ps: seq<Youth>, c: CenterRec): CrewRec -> Emission {
    (k: CrewRec) => Concat(ps, CrewDecl(c, k))
  }

  function CrewLayoutAt(ps: seq<Youth>): CenterRec -> Emission {
    (c: CenterRec) => Concat(c.crews, CrewDeclsAt(ps, c))
  }

  /** `person_crew[p, c, k]` for every center, then every crew, then every person. */
  function CrewLayout(ps: seq<Youth>, centers: seq<CenterRec>): Emission {
    Concat(centers, CrewLayoutAt(ps))
  }

  function Layout(ps: seq<Youth>, centers: seq<CenterRec>): Emission {
    Join(CenterLayout(ps, centers), CrewLayout(ps, centers))
  }

  /** One center variable per (person, center) pair. */
  lemma CenterLayoutCount(ps: seq<Youth>, centers: seq<CenterRec>)
    ensures |CenterLayout(ps, centers).decls| == |ps| * |centers|
  {
    forall y | y in ps
      ensures |CenterLayoutFor(centers)(y).decls| == |centers|
    {
      ConcatDeclCount(centers, CenterDecl(y.name), 1);
    }
    ConcatDeclCount(ps, CenterLayoutFor(centers), |centers|);
  }

  /** One crew variable per (person, crew) pair, over the crews of all centers. */
  lemma {:induction false} CrewLayoutCount(ps: seq<Youth>, centers: seq<CenterRec>)
    ensures |CrewLayout(ps, centers).decls| == |ps| * TotalCrews(centers)
    decreases |centers|
  {
    if |centers| > 0 {
      var n := |centers| - 1;
      var c := centers[n];
      CrewLayoutCount(ps, centers[..n]);
      forall k | k in c.crews
        ensures |CrewDeclsAt(ps, c)(k).decls| == |ps|
      {
        ConcatDeclCount(ps, CrewDecl(c, k), 1);
      }
      ConcatDeclCount(c.crews, CrewDeclsAt(ps, c), |ps|);
      calc {
        |CrewLayout(ps, centers).decls|;
        |CrewLayout(ps, centers[..n]).decls| + |c.crews| * |ps|;
        |ps| * TotalCrews(centers[..n]) + |ps| * |c.crews|;
        |ps| * (TotalCrews(centers[..n]) + |c.crews|);
      }
    }
  }

  /** The keys `person_center` holds: a person's name and a center's name. */
  ghost predicate CenterKeys(pc: map<(string, string), Var>, names: seq<string>, cnames: seq<string>) {
    && (forall key :: key in pc <==> key.0 in names && key.1 in cnames)
    && (forall key :: key in pc ==> pc[key] == PersonCenter(key.0, key.1))
  }

  /** Some center is named `c` and has a crew named `k`. */
  ghost predicate CrewOf(c: string, k: string, centers: seq<CenterRec>) {
    exists j :: 0 <= j < |centers| && centers[j].name == c && k in CrewNames(centers[j])
  }

  ghost predicate CrewKeys(pk: map<(string, string, string), Var>, names: seq<string>, centers: seq<CenterRec>) {
    && (forall key :: key in pk <==> key.0 in names && CrewOf(key.1, key.2, centers))
    && (forall key :: key in pk ==> pk[key] == PersonCrew(key.0, key.1, key.2))
  }

  method DeclareCentersFor(m: CpModel, p: string, centers: seq<CenterRec>, pc: map<(string, string), Var>)
    returns (pc': map<(string, string), Var>)
    requires forall key :: key in pc ==> pc[key] == PersonCenter(key.0, key.1)
    modifies m
    ensures m.Extends(old(m.vars), old(m.constraints), Concat(centers, CenterDecl(p)))
    ensures m.objective == old(m.objective)
    ensures forall key :: key in pc' <==> key in pc || (key.0 == p && key.1 in CenterNames(centers))
    ensures forall key :: key in pc' ==> pc'[key] == PersonCenter(key.0, key.1)
  {
    pc' := pc;
    ghost var vars0, cons0 := m.vars, m.constraints;
    for j := 0 to |centers|
      invariant m.Extends(vars0, cons0, Concat(centers[..j], CenterDecl(p)))
      invariant m.objective == old(m.objective)
      invariant forall key :: key in pc' <==> key in pc || (key.0 == p && key.1 in CenterNames(centers[..j]))
      invariant forall key :: key in pc' ==> pc'[key] == PersonCenter(key.0, key.1)
    {
      var c := centers[j];
      ghost var vars1, cons1 := m.vars, m.constraints;
      var v := m.NewBoolVar(PersonCenter(p, c.name));
      pc' := pc'[(p, c.name) := v];
      GrowStep(centers, j, CenterDecl(p), vars0, cons0, vars1, cons1, m.vars, m.constraints);
      assert CenterNames(centers[..j + 1]) == CenterNames(centers[..j]) + [c.name];
    }
    assert centers[..|centers|] == centers;
  }

  /** Declares `person_center` and returns it keyed by (person name, center name). */
  method DeclareCenterVars(m: CpModel, ps: seq<Youth>, centers: seq<CenterRec>)
    returns (pc: map<(string, string), Var>)
    modifies m
    ensures m.Extends(old(m.vars), old(m.constraints), CenterLayout(ps, centers))
    ensures m.objective == old(m.objective)
    ensures CenterKeys(pc, Names(ps), CenterNames(centers))
  {
    pc := map[];
    ghost var vars0, cons0 := m.vars, m.constraints;
    for i := 0 to |ps|
      invariant m.Extends(vars0, cons0, Concat(ps[..i], CenterLayoutFor(centers)))
      invariant m.objective == old(m.objective)
      invariant CenterKeys(pc, Names(ps[..i]), CenterNames(centers))
    {
      ghost var vars1, cons1 := m.vars, m.constraints;
      pc := DeclareCentersFor(m, ps[i].name, centers, pc);
      GrowStep(ps, i, CenterLayoutFor(centers), vars0, cons0, vars1, cons1, m.vars, m.constraints);
      assert Names(ps[..i + 1]) == Names(ps[..i]) + [ps[i].name];
    }
    assert ps[..|ps|] == ps;
  }

  method DeclareCrewFor(m: CpModel, ps: seq<Youth>, c: CenterRec, k: CrewRec, pk: map<(string, string, string), Var>)
    returns (pk': map<(string, string, string), Var>)
    requires forall key :: key in pk ==> pk[key] == PersonCrew(key.0, key.1, key.2)
    modifies m
    ensures m.Extends(old(m.vars), old(m.constraints), Concat(ps, CrewDecl(c, k)))
    ensures m.objective == old(m.objective)
    ensures forall key :: key in pk' <==> key in pk || (key.0 in Names(ps) && key.1 == c.name && key.2 == k.name)
    ensures forall key :: key in pk' ==> pk'[key] == PersonCrew(key.0, key.1, key.2)
  {
    pk' := pk;
    ghost var vars0, cons0 := m.vars, m.constraints;
    for i := 0 to |ps|
      invariant m.Extends(vars0, cons0, Concat(ps[..i], CrewDecl(c, k)))
      invariant m.objective == old(m.objective)
      invariant forall key :: key in pk' <==> key in pk || (key.0 in Names(ps[..i]) && key.1 == c.name && key.2 == k.name)
      invariant forall key :: key in pk' ==> pk'[key] == PersonCrew(key.0, key.1, key.2)
    {
      ghost var vars1, cons1 := m.vars, m.constraints;
      var v := m.NewBoolVar(PersonCrew(ps[i].name, c.name, k.name));
      pk' := pk'[(ps[i].name, c.name, k.name) := v];
      GrowStep(ps, i, CrewDecl(c, k), vars0, cons0, vars1, cons1, m.vars, m.constraints);
      assert Names(ps[..i + 1]) == Names(ps[..i]) + [ps[i].name];
    }
    assert ps[..|ps|] == ps;
  }

  method DeclareCrewsAt(m: CpModel, ps: seq<Youth>, c: CenterRec, pk: map<(string, string, string), Var>)
    returns (pk': map<(string, string, string), Var>)
    requires forall key :: key in pk ==> pk[key] == PersonCrew(key.0, key.1, key.2)
    modifies m
    ensures m.Extends(old(m.vars), old(m.constraints), Concat(c.crews, CrewDeclsAt(ps, c)))
    ensures m.objective == old(m.objective)
    ensures forall key :: key in pk' <==> key in pk || (key.0 in Names(ps) && key.1 == c.name && key.2 in CrewNames(c))
    ensures forall key :: key in pk' ==> pk'[key] == PersonCrew(key.0, key.1, key.2)
  {
    pk' := pk;
    ghost var vars0, cons0 := m.vars, m.constraints;
    for l := 0 to |c.crews|
      invariant m.Extends(vars0, cons0, Concat(c.crews[..l], CrewDeclsAt(ps, c)))
      invariant m.objective == old(m.objective)
      invariant forall key :: key in pk' <==> key in pk || (key.0 in Names(ps) && key.1 == c.name && key.2 in CrewNames(c)[..l])
      invariant forall key :: key in pk' ==> pk'[key] == PersonCrew(key.0, key.1, key.2)
    {
      ghost var vars1, cons1 := m.vars, m.constraints;
      pk' := DeclareCrewFor(m, ps, c, c.crews[l], pk');
      GrowStep(c.crews, l, CrewDeclsAt(ps, c), vars0, cons0, vars1, cons1, m.vars, m.constraints);
      assert CrewNames(c)[..l + 1] == CrewNames(c)[..l] + [c.crews[l].name];
    }
    assert c.crews[..|c.crews|] == c.crews;
    assert CrewNames(c)[..|c.crews|] == CrewNames(c);
  }

  /** Declares `person_crew` and returns it keyed by (person name, center name, crew name). */
  method DeclareCrewVars(m: CpModel, ps: seq<Youth>, centers: seq<CenterRec>)
    returns (pk: map<(string, string, string), Var>)
    modifies m
    ensures m.Extends(old(m.vars), old(m.constraints), CrewLayout(ps, centers))
    ensures m.objective == old(m.objective)
    ensures CrewKeys(pk, Names(ps), centers)
  {
    pk := map[];
    ghost var vars0, cons0 := m.vars, m.constraints;
    for j := 0 to |centers|
      invariant m.Extends(vars0, cons0, Concat(centers[..j], CrewLayoutAt(ps)))
      invariant m.objective == old(m.objective)
      invariant CrewKeys(pk, Names(ps), centers[..j])
    {
      ghost var vars1, cons1 := m.vars, m.constraints;
      ghost var pk0 := pk;
      pk := DeclareCrewsAt(m, ps, centers[j], pk);
      GrowStep(centers, j, CrewLayoutAt(ps), vars0, cons0, vars1, cons1, m.vars, m.constraints);
      forall c: string, k: string
        ensures CrewOf(c, k, centers[..j + 1]) <==> CrewOf(c, k, centers[..j]) || (c == centers[j].name && k in CrewNames(centers[j]))
      {
        if CrewOf(c, k, centers[..j + 1]) {
          var t :| 0 <= t < j + 1 && centers[..j + 1][t].name == c && k in CrewNames(centers[..j + 1][t]);
          if t < j {
            assert centers[..j][t] == centers[..j + 1][t];
          }
        }
        if CrewOf(c, k, centers[..j]) {
          var t :| 0 <= t < j && centers[..j][t].name == c && k in CrewNames(centers[..j][t]);
          assert centers[..j + 1][t] == centers[..j][t];
        }
        if c == centers[j].name && k in CrewNames(centers[j]) {
          assert centers[..j + 1][j] == centers[j];
        }
      }
    }
    assert centers[..|centers|] == centers;
  }

  // ================================================================ the whole model

  /** The hard constraints, in the order they are added. */
  function HardPart(cfg: Config, ps: seq<Youth>, centers: seq<CenterRec>): Emission {
    Join(Join(Join(Join(Join(Join(Join(
      OneCrewPerYouth(ps, centers),
      LinkCrewAndCenter(ps, centers)),
      Concat(ps, ParentFor(centers))),
      SiblingCenter(ps, centers)),
      FriendSeparation(ps, centers)),
      FriendCenter(ps, centers)),
      CrewSize(cfg, RegularYouth(ps), centers)),
      PastLeader(ps, centers))
  }

  /** What the hard-constraint phase has added when the parent check stops at person `i`. */
  function HardPrefix(ps: seq<Youth>, centers: seq<CenterRec>, i: nat): Emission
    requires i <= |ps|
  {
    Join(Join(OneCrewPerYouth(ps, centers), LinkCrewAndCenter(ps, centers)), Concat(ps[..i], ParentFor(centers)))
  }

  /** The objective helpers and terms: friends over everyone, the balance goals over role 'Youth' only. */
  function SoftPart(cfg: Config, ps: seq<Youth>, centers: seq<CenterRec>): Emission {
    Join(Join(Join(
      FriendPreference(cfg, ps, centers),
      GenderDiversity(cfg, RegularYouth(ps), centers)),
      YearDiversity(cfg, RegularYouth(ps), centers)),
      HistoryDiversity(cfg, RegularYouth(ps), centers))
  }

  function FullModel(cfg: Config, ps: seq<Youth>, centers: seq<CenterRec>): Emission {
    Join(Join(Layout(ps, centers), HardPart(cfg, ps, centers)), SoftPart(cfg, ps, centers))
  }

  /** Every hard rule, as the meaning lemmas of the builders state them. */
  ghost predicate HardRules(cfg: Config, ps: seq<Youth>, centers: seq<CenterRec>, a: Assignment) {
    && (forall i :: 0 <= i < |ps| ==> OneCrewRule(ps[i], centers, a))
    && (forall i :: 0 <= i < |ps| ==> Linked(ps[i].name, centers, a))
    && (forall i :: 0 <= i < |ps| && HasParent(ps[i]) ==> WithParent(ps[i].name, ps[i].parentName.value, centers, a))
    && (forall i :: 0 <= i < |ps| ==> SiblingRule(ps[i], Names(ps), centers, a))
    && (forall i :: 0 <= i < |ps| ==> ApartRule(ps[i], Names(ps), centers, a))
    && (forall i :: 0 <= i < |ps| && |Known(Choices(ps[i]), Names(ps))| > 0 ==> NearFriendRule(ps[i], Names(ps), centers, a))
    && (forall j :: 0 <= j < |centers| ==> CrewSizeCenterOk(cfg, RegularYouth(ps), centers[j], a))
    && (forall i :: 0 <= i < |ps| ==> NotLed(ps[i], centers, a))
  }

  /**
   * Over 0/1 assignment variables, the hard constraints hold exactly when every hard rule
   * does: one crew per youth, linked center variables, the parent, sibling, friend, crew-size
   * and past-leader rules.
   */
  lemma HardPartMeaning(cfg: Config, ps: seq<Youth>, centers: seq<CenterRec>, a: Assignment)
    requires Boolean(a)
    ensures HoldsAll(HardPart(cfg, ps, centers).cons, a) <==> HardRules(cfg, ps, centers, a)
  {
    var e1 := OneCrewPerYouth(ps, centers);
    var e2 := Join(e1, LinkCrewAndCenter(ps, centers));
    var e3 := Join(e2, Concat(ps, ParentFor(centers)));
    var e4 := Join(e3, SiblingCenter(ps, centers));
    var e5 := Join(e4, FriendSeparation(ps, centers));
    var e6 := Join(e5, FriendCenter(ps, centers));
    var e7 := Join(e6, CrewSize(cfg, RegularYouth(ps), centers));
    JoinHolds(e1, LinkCrewAndCenter(ps, centers), a);
    JoinHolds(e2, Concat(ps, ParentFor(centers)), a);
    JoinHolds(e3, SiblingCenter(ps, centers), a);
    JoinHolds(e4, FriendSeparation(ps, centers), a);
    JoinHolds(e5, FriendCenter(ps, centers), a);
    JoinHolds(e6, CrewSize(cfg, RegularYouth(ps), centers), a);
    JoinHolds(e7, PastLeader(ps, centers), a);
    OneCrewPerYouthMeaning(ps, centers, a);
    LinkCrewAndCenterMeaning(ps, centers, a);
    ParentCenterRule(ps, centers, a);
    SiblingCenterMeaning(ps, centers, a);
    FriendSeparationMeaning(ps, centers, a);
    FriendCenterMeaning(ps, centers, a);
    CrewSizeMeaning(cfg, RegularYouth(ps), centers, a);
    PastLeaderMeaning(ps, centers, a);
  }

  /**
   * With a valid configuration every objective term rewards: no coefficient is negative, so
   * maximising never pushes a friend flag, balance or year flag down.
   */
  lemma SoftCoefs(cfg: Config, ps: seq<Youth>, centers: seq<CenterRec>)
    requires cfg.Valid()
    ensures forall t :: t in SoftPart(cfg, ps, centers).terms ==> t.coef >= 0
  {
    var rs := RegularYouth(ps);
    FriendCoefs(cfg, ps, centers);
    GenderCoefs(cfg, rs, centers);
    YearCoefs(cfg, rs, centers);
    HistoryCoefs(cfg, rs, centers);
  }

  /**
   * In any 0/1 assignment satisfying the hard constraints, every person with role 'Youth' is in
   * exactly one crew and at exactly one center.
   */
  lemma YouthPlaced(cfg: Config, ps: seq<Youth>, centers: seq<CenterRec>, a: Assignment, i: nat)
    requires Boolean(a) && HoldsAll(HardPart(cfg, ps, centers).cons, a)
    requires i < |ps| && ps[i].role == "Youth"
    ensures ExactlyOne(CrewVars(ps[i].name, centers), a)
    ensures ExactlyOne(CenterVars(ps[i].name, centers), a)
  {
    HardPartMeaning(cfg, ps, centers, a);
    assert OneCrewRule(ps[i], centers, a);
    ConcatHolds(ps, OneCrewFor(centers), a);
    ConcatHolds(ps, LinkFor(centers), a);
    var e1 := OneCrewPerYouth(ps, centers);
    JoinHolds(e1, LinkCrewAndCenter(ps, centers), a);
    var e2 := Join(e1, LinkCrewAndCenter(ps, centers));
    var e3 := Join(e2, Concat(ps, ParentFor(centers)));
    var e4 := Join(e3, SiblingCenter(ps, centers));
    var e5 := Join(e4, FriendSeparation(ps, centers));
    var e6 := Join(e5, FriendCenter(ps, centers));
    var e7 := Join(e6, CrewSize(cfg, RegularYouth(ps), centers));
    JoinHolds(e2, Concat(ps, ParentFor(centers)), a);
    JoinHolds(e3, SiblingCenter(ps, centers), a);
    JoinHolds(e4, FriendSeparation(ps, centers), a);
    JoinHolds(e5, FriendCenter(ps, centers), a);
    JoinHolds(e6, CrewSize(cfg, RegularYouth(ps), centers), a);
    JoinHolds(e7, PastLeader(ps, centers), a);
    assert HoldsAll(OneCrewFor(centers)(ps[i]).cons, a);
    assert HoldsAll(LinkFor(centers)(ps[i]).cons, a);
    OneCenterPerYouth(ps[i], centers, a);
  }

  /** Adds the hard constraints in order; the parent check may stop the sequence. */
  method AddHardConstraints(m: CpModel, cfg: Config, ps: seq<Youth>, centers: seq<CenterRec>) returns (r: Outcome)
    modifies m
    ensures match FirstMissingParent(ps, AdultNames(centers))
      case None => r == Pass && m.Extends(old(m.vars), old(m.constraints), HardPart(cfg, ps, centers))
      case Some(i) => r == Fail(ParentMessage(ps[i])) && m.Extends(old(m.vars), old(m.constraints), HardPrefix(ps, centers, i))
    ensures m.objective == old(m.objective)
  {
    var regular := RegularYouth(ps);
    ghost var v0, c0 := m.vars, m.constraints;
    AddOneCrewPerYouth(m, ps, centers);
    ghost var v1, c1 := m.vars, m.constraints;
    AddLinkCrewAndCenterVars(m, ps, centers);
    GrowJoin(v0, c0, OneCrewPerYouth(ps, centers), v1, c1, LinkCrewAndCenter(ps, centers), m.vars, m.constraints);
    ghost var e := Join(OneCrewPerYouth(ps, centers), LinkCrewAndCenter(ps, centers));
    ghost var v2, c2 := m.vars, m.constraints;
    r := EnforceParentCenter(m, ps, centers);
    match FirstMissingParent(ps, AdultNames(centers))
    case Some(i) =>
      GrowJoin(v0, c0, e, v2, c2, Concat(ps[..i], ParentFor(centers)), m.vars, m.constraints);
      return;
    case None =>
      GrowJoin(v0, c0, e, v2, c2, Concat(ps, ParentFor(centers)), m.vars, m.constraints);
    e := Join(e, Concat(ps, ParentFor(centers)));
    v2, c2 := m.vars, m.constraints;
    EnforceSiblingCenter(m, ps, centers);
    GrowJoin(v0, c0, e, v2, c2, SiblingCenter(ps, centers), m.vars, m.constraints);
    e := Join(e, SiblingCenter(ps, centers));
    v2, c2 := m.vars, m.constraints;
    EnforceFriendSeparation(m, ps, centers);
    GrowJoin(v0, c0, e, v2, c2, FriendSeparation(ps, centers), m.vars, m.constraints);
    e := Join(e, FriendSeparation(ps, centers));
    v2, c2 := m.vars, m.constraints;
    EnforceFriendCenter(m, ps, centers);
    GrowJoin(v0, c0, e, v2, c2, FriendCenter(ps, centers), m.vars, m.constraints);
    e := Join(e, FriendCenter(ps, centers));
    v2, c2 := m.vars, m.constraints;
    EnforceCrewSize(m, cfg, regular, centers);
    GrowJoin(v0, c0, e, v2, c2, CrewSize(cfg, regular, centers), m.vars, m.constraints);
    e := Join(e, CrewSize(cfg, regular, centers));
    v2, c2 := m.vars, m.constraints;
    EnforcePastLeader(m, ps, centers);
    GrowJoin(v0, c0, e, v2, c2, PastLeader(ps, centers), m.vars, m.constraints);
  }

  /** Adds the objective helpers and returns all objective terms, friends first. */
  method AddObjectives(m: CpModel, cfg: Config, ps: seq<Youth>, centers: seq<CenterRec>) returns (ts: seq<Term>)
    modifies m
    ensures m.Extends(old(m.vars), old(m.constraints), SoftPart(cfg, ps, centers))
    ensures ts == SoftPart(cfg, ps, centers).terms
    ensures m.objective == old(m.objective)
  {
    var regular := RegularYouth(ps);
    ghost var v0, c0 := m.vars, m.constraints;
    ts := AddFriendPreference(m, cfg, ps, centers);
    ghost var e := FriendPreference(cfg, ps, centers);
    ghost var v1, c1 := m.vars, m.constraints;
    var more := AddGenderDiversity(m, cfg, regular, centers);
    ts := ts + more;
    GrowJoin(v0, c0, e, v1, c1, GenderDiversity(cfg, regular, centers), m.vars, m.constraints);
    e := Join(e, GenderDiversity(cfg, regular, centers));
    v1, c1 := m.vars, m.constraints;
    more := AddYearDiversity(m, cfg, regular, centers);
    ts := ts + more;
    GrowJoin(v0, c0, e, v1, c1, YearDiversity(cfg, regular, centers), m.vars, m.constraints);
    e := Join(e, YearDiversity(cfg, regular, centers));
    v1, c1 := m.vars, m.constraints;
    more := AddHistoryDiversity(m, cfg, regular, centers);
    ts := ts + more;
    GrowJoin(v0, c0, e, v1, c1, HistoryDiversity(cfg, regular, centers), m.vars, m.constraints);
  }

  /**
   * Builds the whole model. When a parent is on no roster the build stops there with that
   * person's message and no objective; otherwise the model holds exactly the layout, the hard
   * constraints and the objective helpers, and maximises the sum of all objective terms.
   */
  method CreateCrewAssignmentModel(cfg: Config, ps: seq<Youth>, centers: seq<CenterRec>)
    returns (r: Outcome, m: CpModel, personCenter: map<(string, string), Var>,
             personCrew: map<(string, string, string), Var>)
    ensures fresh(m)
    ensures CenterKeys(personCenter, Names(ps), CenterNames(centers))
    ensures CrewKeys(personCrew, Names(ps), centers)
    ensures match FirstMissingParent(ps, AdultNames(centers))
      case None =>
        && r == Pass
        && m.vars == FullModel(cfg, ps, centers).decls
        && m.constraints == FullModel(cfg, ps, centers).cons
        && m.objective == Some(LinExpr(SoftPart(cfg, ps, centers).terms, 0))
      case Some(i) =>
        && r == Fail(ParentMessage(ps[i]))
        && m.vars == Join(Layout(ps, centers), HardPrefix(ps, centers, i)).decls
        && m.constraints == Join(Layout(ps, centers), HardPrefix(ps, centers, i)).cons
        && m.objective == None
  {
    m := new CpModel();
    personCenter := DeclareCenterVars(m, ps, centers);
    ghost var v1, c1 := m.vars, m.constraints;
    personCrew := DeclareCrewVars(m, ps, centers);
    GrowJoin([], [], CenterLayout(ps, centers), v1, c1, CrewLayout(ps, centers), m.vars, m.constraints);
    ghost var v2, c2 := m.vars, m.constraints;
    r := AddHardConstraints(m, cfg, ps, centers);
    if r.Fail? {
      match FirstMissingParent(ps, AdultNames(centers))
      case Some(i) =>
        GrowJoin([], [], Layout(ps, centers), v2, c2, HardPrefix(ps, centers, i), m.vars, m.constraints);
      return;
    }
    GrowJoin([], [], Layout(ps, centers), v2, c2, HardPart(cfg, ps, centers), m.vars, m.constraints);
    ghost var v3, c3 := m.vars, m.constraints;
    var ts := AddObjectives(m, cfg, ps, centers);
    GrowJoin([], [], Join(Layout(ps, centers), HardPart(cfg, ps, centers)), v3, c3, SoftPart(cfg, ps, centers),
             m.vars, m.constraints);
    m.Maximize(LinExpr(ts, 0));
  }
}
