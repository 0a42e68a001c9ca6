/**
 * The family constraints: a youth works at the center of the parent on an adult roster but
 * never in the parent's crew, and siblings work at the same center.
 */
module FamilyConstraints {
  import opened Wrappers
  import opened Linear
  import opened Models
  import opened Variables

  // ================================================================ rosters

  /** Some crew of `ks` lists `x` among its adults: the source's `any(x in crew.adults ...)`. */
  predicate InAnyCrew(x: string, ks: seq<CrewRec>) {
    exists l :: 0 <= l < |ks| && x in ks[l].adults
  }

  predicate OnRoster(x: string, c: CenterRec) {
    InAnyCrew(x, c.crews)
  }

  /** Every adult of every crew, crew by crew. */
  function CrewAdults(ks: seq<CrewRec>): seq<string>
    decreases |ks|
  {
    if |ks| == 0 then [] else CrewAdults(ks[..|ks| - 1]) + ks[|ks| - 1].adults
  }

  /** Every adult of every crew of every center: the source's `adult_names`. */
  function AdultNames(cs: seq<CenterRec>): seq<string>
    decreases |cs|
  {
    if |cs| == 0 then [] else AdultNames(cs[..|cs| - 1]) + CrewAdults(cs[|cs| - 1].crews)
  }

  lemma {:induction false} CrewAdultsMembers(x: string, ks: seq<CrewRec>)
    ensures x in CrewAdults(ks) <==> InAnyCrew(x, ks)
    decreases |ks|
  {
    if |ks| > 0 {
      var n := |ks| - 1;
      CrewAdultsMembers(x, ks[..n]);
      if InAnyCrew(x, ks[..n]) {
        var l :| 0 <= l < n && x in ks[..n][l].adults;
        assert ks[l] == ks[..n][l];
      }
      if InAnyCrew(x, ks) && x !in ks[n].adults {
        var l :| 0 <= l < |ks| && x in ks[l].adults;
        assert ks[..n][l] == ks[l];
      }
    }
  }

  /** `x` is in `adult_names` exactly when some center has `x` on one of its crew rosters. */
  lemma {:induction false} AdultNamesMembers(x: string, cs: seq<CenterRec>)
    ensures x in AdultNames(cs) <==> exists j :: 0 <= j < |cs| && OnRoster(x, cs[j])
    decreases |cs|
  {
    if |cs| > 0 {
      var n := |cs| - 1;
      AdultNamesMembers(x, cs[..n]);
      CrewAdultsMembers(x, cs[n].crews);
      if exists j :: 0 <= j < n && OnRoster(x, cs[..n][j]) {
        var j :| 0 <= j < n && OnRoster(x, cs[..n][j]);
        assert cs[j] == cs[..n][j];
      }
      if (exists j :: 0 <= j < |cs| && OnRoster(x, cs[j])) && !OnRoster(x, cs[n]) {
        var j :| 0 <= j < |cs| && OnRoster(x, cs[j]);
        assert cs[..n][j] == cs[j];
      }
    }
  }

  // ================================================================ parent center

  /** `youth.parent_name` is truthy: present and not the empty string. */
  predicate HasParent(y: Youth) {
    y.parentName.Some? && |y.parentName.value| > 0
  }

  predicate MissingParent(y: Youth, adults: seq<string>) {
    HasParent(y) && y.parentName.value !in adults
  }

  /** The first person whose parent is on no roster, if any: the one the builder raises for. */
  function FirstMissingParent(ps: seq<Youth>, adults: seq<string>): (r: Option<nat>)
    ensures r.Some? ==> r.value < |ps| && MissingParent(ps[r.value], adults)
    ensures r.Some? ==> forall i :: 0 <= i < r.value ==> !MissingParent(ps[i], adults)
    ensures r.None? ==> forall i :: 0 <= i < |ps| ==> !MissingParent(ps[i], adults)
    decreases |ps|
  {
    if |ps| == 0 then None
    else if MissingParent(ps[0], adults) then Some(0)
    else match FirstMissingParent(ps[1..], adults)
      case None => None
      case Some(i) => Some(i + 1)
  }

  function ParentMessage(y: Youth): string
    requires y.parentName.Some?
  {
    "Parent " + y.parentName.value + " not found in any center for " + y.name
  }

  function ParentCrewOf(p: string, parent: string, c: CenterRec, k: CrewRec): Emission {
    if parent in k.adults then Cons1(Equal(Var1(PersonCrew(p, c.name, k.name)), Const(0))) else Nothing
  }

  function ParentCrew(p: string, parent: string, c: CenterRec): CrewRec -> Emission {
    (k: CrewRec) => ParentCrewOf(p, parent, c, k)
  }

  /** At the parent's centers: the youth is there, and not in a crew listing the parent; elsewhere: not there. */
  function ParentCenterOf(p: string, parent: string, c: CenterRec): Emission {
    if OnRoster(parent, c) then
      Join(Cons1(Equal(Var1(PersonCenter(p, c.name)), Const(1))), Concat(c.crews, ParentCrew(p, parent, c)))
    else Cons1(Equal(Var1(PersonCenter(p, c.name)), Const(0)))
  }

  function ParentCenter(p: string, parent: string): CenterRec -> Emission {
    (c: CenterRec) => ParentCenterOf(p, parent, c)
  }

  function ParentOf(y: Youth, centers: seq<CenterRec>): Emission {
    if HasParent(y) then Concat(centers, ParentCenter(y.name, y.parentName.value)) else Nothing
  }

  function ParentFor(centers: seq<CenterRec>): Youth -> Emission {
    (y: Youth) => ParentOf(y, centers)
  }

  /** `p` is at `c` exactly when `parent` is on a roster there, and in none of `parent`'s crews. */
  ghost predicate WithParentAt(p: string, parent: string, c: CenterRec, a: Assignment) {
    && a(PersonCenter(p, c.name)) == (if OnRoster(parent, c) then 1 else 0)
    && forall l :: 0 <= l < |c.crews| && parent in c.crews[l].adults ==>
         a(PersonCrew(p, c.name, c.crews[l].name)) == 0
  }

  ghost predicate WithParent(p: string, parent: string, centers: seq<CenterRec>, a: Assignment) {
    forall j :: 0 <= j < |centers| ==> WithParentAt(p, parent, centers[j], a)
  }

  lemma ParentCrewsMeaning(p: string, parent: string, c: CenterRec, a: Assignment)
    ensures HoldsAll(Concat(c.crews, ParentCrew(p, parent, c)).cons, a) <==>
            forall l :: 0 <= l < |c.crews| && parent in c.crews[l].adults ==>
              a(PersonCrew(p, c.name, c.crews[l].name)) == 0
  {
    ConcatHolds(c.crews, ParentCrew(p, parent, c), a);
    forall l | 0 <= l < |c.crews|
      ensures HoldsAll(ParentCrew(p, parent, c)(c.crews[l]).cons, a) <==>
              (parent in c.crews[l].adults ==> a(PersonCrew(p, c.name, c.crews[l].name)) == 0)
    {
      var k := c.crews[l];
      HoldsCons1(Equal(Var1(PersonCrew(p, c.name, k.name)), Const(0)), a);
      EvalVar1(PersonCrew(p, c.name, k.name), a);
    }
  }

  lemma ParentCenterMeaning(p: string, parent: string, c: CenterRec, a: Assignment)
    ensures HoldsAll(ParentCenterOf(p, parent, c).cons, a) <==> WithParentAt(p, parent, c, a)
  {
    var here := Equal(Var1(PersonCenter(p, c.name)), Const(if OnRoster(parent, c) then 1 else 0));
    HoldsCons1(here, a);
    EvalVar1(PersonCenter(p, c.name), a);
    if OnRoster(parent, c) {
      var crews := Concat(c.crews, ParentCrew(p, parent, c));
      HoldsAllAppend([here], crews.cons, a);
      ParentCrewsMeaning(p, parent, c, a);
    }
  }

  lemma ParentOfMeaning(y: Youth, centers: seq<CenterRec>, a: Assignment)
    requires HasParent(y)
    ensures HoldsAll(ParentOf(y, centers).cons, a) <==> WithParent(y.name, y.parentName.value, centers, a)
  {
    var parent := y.parentName.value;
    ConcatHolds(centers, ParentCenter(y.name, parent), a);
    forall j | 0 <= j < |centers|
      ensures HoldsAll(ParentCenter(y.name, parent)(centers[j]).cons, a) <==>
              WithParentAt(y.name, parent, centers[j], a)
    {
      ParentCenterMeaning(y.name, parent, centers[j], a);
    }
  }

  /**
   * The parent constraints hold exactly when every person with a parent is at the parent's
   * centers only, and never in a crew listing the parent.
   */
  lemma ParentCenterRule(ps: seq<Youth>, centers: seq<CenterRec>, a: Assignment)
    ensures HoldsAll(Concat(ps, ParentFor(centers)).cons, a) <==>
            forall i :: 0 <= i < |ps| && HasParent(ps[i]) ==>
              WithParent(ps[i].name, ps[i].parentName.value, centers, a)
  {
    ConcatHolds(ps, ParentFor(centers), a);
    forall i | 0 <= i < |ps|
      ensures HoldsAll(ParentFor(centers)(ps[i]).cons, a) <==>
              (HasParent(ps[i]) ==> WithParent(ps[i].name, ps[i].parentName.value, centers, a))
    {
      if HasParent(ps[i]) {
        ParentOfMeaning(ps[i], centers, a);
      }
    }
  }

  /** A youth whose parent is on some roster is placed at a center where the parent works. */
  lemma ParentPlacesYouth(y: Youth, centers: seq<CenterRec>, a: Assignment)
    requires HasParent(y) && y.parentName.value in AdultNames(centers)
    requires WithParent(y.name, y.parentName.value, centers, a)
    ensures exists j :: 0 <= j < |centers| && OnRoster(y.parentName.value, centers[j])
                        && a(PersonCenter(y.name, centers[j].name)) == 1
  {
    AdultNamesMembers(y.parentName.value, centers);
    var j :| 0 <= j < |centers| && OnRoster(y.parentName.value, centers[j]);
    assert WithParentAt(y.name, y.parentName.value, centers[j], a);
  }

  method AddParentCrews(m: CpModel, p: string, parent: string, c: CenterRec)
    modifies m
    ensures m.Extends(old(m.vars), old(m.constraints), Concat(c.crews, ParentCrew(p, parent, c)))
    ensures m.objective == old(m.objective)
  {
    ghost var vars0, cons0 := m.vars, m.constraints;
    for l := 0 to |c.crews|
      invariant m.Extends(vars0, cons0, Concat(c.crews[..l], ParentCrew(p, parent, c)))
      invariant m.objective == old(m.objective)
    {
      var k := c.crews[l];
      ghost var vars1, cons1 := m.vars, m.constraints;
      if parent in k.adults {
        m.Add(Equal(Var1(PersonCrew(p, c.name, k.name)), Const(0)));
      }
      GrowStep(c.crews, l, ParentCrew(p, parent, c), vars0, cons0, vars1, cons1, m.vars, m.constraints);
    }
    assert c.crews[..|c.crews|] == c.crews;
  }

  method AddParentCenter(m: CpModel, p: string, parent: string, c: CenterRec)
    modifies m
    ensures m.Extends(old(m.vars), old(m.constraints), ParentCenterOf(p, parent, c))
    ensures m.objective == old(m.objective)
  {
    if OnRoster(parent, c) {
      m.Add(Equal(Var1(PersonCenter(p, c.name)), Const(1)));
      AddParentCrews(m, p, parent, c);
    } else {
      m.Add(Equal(Var1(PersonCenter(p, c.name)), Const(0)));
    }
  }

  method AddParentCenters(m: CpModel, p: string, parent: string, centers: seq<CenterRec>)
    modifies m
    ensures m.Extends(old(m.vars), old(m.constraints), Concat(centers, ParentCenter(p, parent)))
    ensures m.objective == old(m.objective)
  {
    ghost var vars0, cons0 := m.vars, m.constraints;
    for j := 0 to |centers|
      invariant m.Extends(vars0, cons0, Concat(centers[..j], ParentCenter(p, parent)))
      invariant m.objective == old(m.objective)
    {
      ghost var vars1, cons1 := m.vars, m.constraints;
      AddParentCenter(m, p, parent, centers[j]);
      GrowStep(centers, j, ParentCenter(p, parent), vars0, cons0, vars1, cons1, m.vars, m.constraints);
    }
    assert centers[..|centers|] == centers;
  }

  /**
   * Adds the parent constraints person by person. At the first person whose parent is on no
   * roster it stops with that person's message, keeping what the earlier persons added.
   */
  method EnforceParentCenter(m: CpModel, ps: seq<Youth>, centers: seq<CenterRec>) returns (r: Outcome)
    modifies m
    ensures match FirstMissingParent(ps, AdultNames(centers))
      case None => r == Pass && m.Extends(old(m.vars), old(m.constraints), Concat(ps, ParentFor(centers)))
      case Some(i) =>
        && r == Fail(ParentMessage(ps[i]))
        && m.Extends(old(m.vars), old(m.constraints), Concat(ps[..i], ParentFor(centers)))
    ensures m.objective == old(m.objective)
  {
    var adults := AdultNames(centers);
    ghost var vars0, cons0 := m.vars, m.constraints;
    for i := 0 to |ps|
      invariant m.Extends(vars0, cons0, Concat(ps[..i], ParentFor(centers)))
      invariant forall j :: 0 <= j < i ==> !MissingParent(ps[j], adults)
      invariant m.objective == old(m.objective)
    {
      var y := ps[i];
      ghost var vars1, cons1 := m.vars, m.constraints;
      if y.parentName.Some? && |y.parentName.value| > 0 {
        if y.parentName.value !in adults {
          r := Fail(ParentMessage(y));
          return;
        }
        AddParentCenters(m, y.name, y.parentName.value, centers);
      }
      GrowStep(ps, i, ParentFor(centers), vars0, cons0, vars1, cons1, m.vars, m.constraints);
    }
    assert ps[..|ps|] == ps;
    r := Pass;
  }

  // ================================================================ sibling center

  function SiblingAtOf(p: string, s: string, c: CenterRec): Emission {
    Cons1(Equal(Var1(PersonCenter(p, c.name)), Var1(PersonCenter(s, c.name))))
  }

  function SiblingAt(p: string, s: string): CenterRec -> Emission {
    (c: CenterRec) => SiblingAtOf(p, s, c)
  }

  /** Only siblings on the roster (keys of `youth_dict`) are tied; others are skipped. */
  function SiblingOf(p: string, names: seq<string>, centers: seq<CenterRec>): string -> Emission {
    (s: string) => if s in names then Concat(centers, SiblingAt(p, s)) else Nothing
  }

  function SiblingsOf(y: Youth, names: seq<string>, centers: seq<CenterRec>): Emission {
    Concat(y.siblings, SiblingOf(y.name, names, centers))
  }

  function SiblingsFor(names: seq<string>, centers: seq<CenterRec>): Youth -> Emission {
    (y: Youth) => SiblingsOf(y, names, centers)
  }

  function SiblingCenter(ps: seq<Youth>, centers: seq<CenterRec>): Emission {
    Concat(ps, SiblingsFor(Names(ps), centers))
  }

  /** `p` and `s` take the same value at every center: the same center, when each has exactly one. */
  ghost predicate SameCenters(p: string, s: string, centers: seq<CenterRec>, a: Assignment) {
    forall j :: 0 <= j < |centers| ==> a(PersonCenter(p, centers[j].name)) == a(PersonCenter(s, centers[j].name))
  }

  ghost predicate SiblingRule(y: Youth, names: seq<string>, centers: seq<CenterRec>, a: Assignment) {
    forall t :: 0 <= t < |y.siblings| && y.siblings[t] in names ==> SameCenters(y.name, y.siblings[t], centers, a)
  }

  lemma SameCentersMeaning(p: string, s: string, centers: seq<CenterRec>, a: Assignment)
    ensures HoldsAll(Concat(centers, SiblingAt(p, s)).cons, a) <==> SameCenters(p, s, centers, a)
  {
    ConcatHolds(centers, SiblingAt(p, s), a);
    forall j | 0 <= j < |centers|
      ensures HoldsAll(SiblingAt(p, s)(centers[j]).cons, a) <==>
              a(PersonCenter(p, centers[j].name)) == a(PersonCenter(s, centers[j].name))
    {
      var c := centers[j];
      HoldsCons1(Equal(Var1(PersonCenter(p, c.name)), Var1(PersonCenter(s, c.name))), a);
      EvalVar1(PersonCenter(p, c.name), a);
      EvalVar1(PersonCenter(s, c.name), a);
    }
  }

  lemma SiblingsOfMeaning(y: Youth, names: seq<string>, centers: seq<CenterRec>, a: Assignment)
    ensures HoldsAll(SiblingsOf(y, names, centers).cons, a) <==> SiblingRule(y, names, centers, a)
  {
    ConcatHolds(y.siblings, SiblingOf(y.name, names, centers), a);
    forall t | 0 <= t < |y.siblings|
      ensures HoldsAll(SiblingOf(y.name, names, centers)(y.siblings[t]).cons, a) <==>
              (y.siblings[t] in names ==> SameCenters(y.name, y.siblings[t], centers, a))
    {
      SameCentersMeaning(y.name, y.siblings[t], centers, a);
    }
  }

  /** The sibling constraints hold exactly when every person shares centers with each listed sibling on the roster. */
  lemma SiblingCenterMeaning(ps: seq<Youth>, centers: seq<CenterRec>, a: Assignment)
    ensures HoldsAll(SiblingCenter(ps, centers).cons, a) <==>
            forall i :: 0 <= i < |ps| ==> SiblingRule(ps[i], Names(ps), centers, a)
  {
    ConcatHolds(ps, SiblingsFor(Names(ps), centers), a);
    forall i | 0 <= i < |ps|
      ensures HoldsAll(SiblingsFor(Names(ps), centers)(ps[i]).cons, a) <==> SiblingRule(ps[i], Names(ps), centers, a)
    {
      SiblingsOfMeaning(ps[i], Names(ps), centers, a);
    }
  }

  /** A youth placed at a center brings every listed sibling on the roster to that center. */
  lemma SiblingFollows(ps: seq<Youth>, centers: seq<CenterRec>, a: Assignment, i: nat, t: nat, j: nat)
    requires HoldsAll(SiblingCenter(ps, centers).cons, a)
    requires i < |ps| && t < |ps[i].siblings| && j < |centers|
    requires ps[i].siblings[t] in Names(ps)
    requires a(PersonCenter(ps[i].name, centers[j].name)) == 1
    ensures a(PersonCenter(ps[i].siblings[t], centers[j].name)) == 1
  {
    SiblingCenterMeaning(ps, centers, a);
    assert SiblingRule(ps[i], Names(ps), centers, a);
  }

  method AddSiblingAt(m: CpModel, p: string, s: string, centers: seq<CenterRec>)
    modifies m
    ensures m.Extends(old(m.vars), old(m.constraints), Concat(centers, SiblingAt(p, s)))
    ensures m.objective == old(m.objective)
  {
    ghost var vars0, cons0 := m.vars, m.constraints;
    for j := 0 to |centers|
      invariant m.Extends(vars0, cons0, Concat(centers[..j], SiblingAt(p, s)))
      invariant m.objective == old(m.objective)
    {
      var c := centers[j];
      ghost var vars1, cons1 := m.vars, m.constraints;
      m.Add(Equal(Var1(PersonCenter(p, c.name)), Var1(PersonCenter(s, c.name))));
      GrowStep(centers, j, SiblingAt(p, s), vars0, cons0, vars1, cons1, m.vars, m.constraints);
    }
    assert centers[..|centers|] == centers;
  }

  method AddSiblingsOf(m: CpModel, y: Youth, names: seq<string>, centers: seq<CenterRec>)
    modifies m
    ensures m.Extends(old(m.vars), old(m.constraints), SiblingsOf(y, names, centers))
    ensures m.objective == old(m.objective)
  {
    ghost var vars0, cons0 := m.vars, m.constraints;
    for t := 0 to |y.siblings|
      invariant m.Extends(vars0, cons0, Concat(y.siblings[..t], SiblingOf(y.name, names, centers)))
      invariant m.objective == old(m.objective)
    {
      var s := y.siblings[t];
      ghost var vars1, cons1 := m.vars, m.constraints;
      if s in names {
        AddSiblingAt(m, y.name, s, centers);
      }
      GrowStep(y.siblings, t, SiblingOf(y.name, names, centers), vars0, cons0, vars1, cons1, m.vars, m.constraints);
    }
    assert y.siblings[..|y.siblings|] == y.siblings;
  }

  method EnforceSiblingCenter(m: CpModel, ps: seq<Youth>, centers: seq<CenterRec>)
    modifies m
    ensures m.Extends(old(m.vars), old(m.constraints), SiblingCenter(ps, centers))
    ensures m.objective == old(m.objective)
  {
    var names := Names(ps);
    ghost var vars0, cons0 := m.vars, m.constraints;
    for i := 0 to |ps|
      invariant m.Extends(vars0, cons0, Concat(ps[..i], SiblingsFor(names, centers)))
      invariant m.objective == old(m.objective)
    {
      ghost var vars1, cons1 := m.vars, m.constraints;
      AddSiblingsOf(m, ps[i], names, centers);
      GrowStep(ps, i, SiblingsFor(names, centers), vars0, cons0, vars1, cons1, m.vars, m.constraints);
    }
    assert ps[..|ps|] == ps;
  }
}
