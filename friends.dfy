/**
 * The friend constraints: friends never share a crew, and a youth with friend choices on the
 * roster works at a center where at least one of those friends works.
 */
module FriendConstraints {
  import opened Wrappers
  import opened Linear
  import opened Models
  import opened Variables

  /** The choices that are not `None`, in rank order. */
  function Present(os: seq<Option<string>>): (fs: seq<string>)
    ensures |fs| <= |os|
    ensures forall f :: f in fs <==> Some(f) in os
    decreases |os|
  {
    if |os| == 0 then []
    else
      var n := |os| - 1;
      Present(os[..n]) + (if os[n].Some? then [os[n].value] else [])
  }

  /** The choices that are not `None` and name someone on the roster, in rank order. */
  function Known(os: seq<Option<string>>, names: seq<string>): (fs: seq<string>)
    ensures |fs| <= |os|
    ensures forall f :: f in fs <==> Some(f) in os && f in names
    decreases |os|
  {
    if |os| == 0 then []
    else
      var n := |os| - 1;
      Known(os[..n], names) + (if os[n].Some? && os[n].value in names then [os[n].value] else [])
  }

  /** `Present` keeps list order: it distributes over concatenation. */
  lemma {:induction false} PresentAppend(xs: seq<Option<string>>, ys: seq<Option<string>>)
    ensures Present(xs + ys) == Present(xs) + Present(ys)
    decreases |ys|
  {
    if |ys| == 0 {
      assert xs + ys == xs;
    } else {
      var n := |ys| - 1;
      assert (xs + ys)[..|xs + ys| - 1] == xs + ys[..n];
      PresentAppend(xs, ys[..n]);
    }
  }

  /** One choice is kept, once, iff it is not `None`. */
  lemma PresentOne(o: Option<string>)
    ensures Present([o]) == if o.Some? then [o.value] else []
  {
    assert [o][..0] == [];
  }

  /** `Known` keeps list order: it distributes over concatenation. */
  lemma {:induction false} KnownAppend(xs: seq<Option<string>>, ys: seq<Option<string>>, names: seq<string>)
    ensures Known(xs + ys, names) == Known(xs, names) + Known(ys, names)
    decreases |ys|
  {
    if |ys| == 0 {
      assert xs + ys == xs;
    } else {
      var n := |ys| - 1;
      assert (xs + ys)[..|xs + ys| - 1] == xs + ys[..n];
      KnownAppend(xs, ys[..n], names);
    }
  }

  /** One choice is kept, once, iff it is not `None` and names someone on the roster. */
  lemma KnownOne(o: Option<string>, names: seq<string>)
    ensures Known([o], names) == if o.Some? && o.value in names then [o.value] else []
  {
    assert [o][..0] == [];
  }

  // ================================================================ friend separation

  function FriendSepCrewOf(p: string, f: string, c: CenterRec, k: CrewRec): Emission {
    Cons1(AtMost(Plus(Var1(PersonCrew(p, c.name, k.name)), Var1(PersonCrew(f, c.name, k.name))), Const(1)))
  }

  function FriendSepCrew(p: string, f: string, c: CenterRec): CrewRec -> Emission {
    (k: CrewRec) => FriendSepCrewOf(p, f, c, k)
  }

  function FriendSepCenterOf(p: string, f: string, c: CenterRec): Emission {
    Concat(c.crews, FriendSepCrew(p, f, c))
  }

  function FriendSepCenter(p: string, f: string): CenterRec -> Emission {
    (c: CenterRec) => FriendSepCenterOf(p, f, c)
  }

  /** A chosen friend who is on the roster is kept out of every crew `p` is in; others are skipped. */
  function FriendSepOf(p: string, names: seq<string>, centers: seq<CenterRec>): string -> Emission {
    (f: string) => if f in names then Concat(centers, FriendSepCenter(p, f)) else Nothing
  }

  function FriendSepFriends(y: Youth, names: seq<string>, centers: seq<CenterRec>): Emission {
    Concat(Present(Choices(y)), FriendSepOf(y.name, names, centers))
  }

  function FriendSepFor(names: seq<string>, centers: seq<CenterRec>): Youth -> Emission {
    (y: Youth) => FriendSepFriends(y, names, centers)
  }

  function FriendSeparation(ps: seq<Youth>, centers: seq<CenterRec>): Emission {
    Concat(ps, FriendSepFor(Names(ps), centers))
  }

  /** `p` and `f` are never both in the same crew at center `c`. */
  ghost predicate ApartAt(p: string, f: string, c: CenterRec, a: Assignment) {
    forall l :: 0 <= l < |c.crews| ==>
      !(a(PersonCrew(p, c.name, c.crews[l].name)) == 1 && a(PersonCrew(f, c.name, c.crews[l].name)) == 1)
  }

  ghost predicate Apart(p: string, f: string, centers: seq<CenterRec>, a: Assignment) {
    forall j :: 0 <= j < |centers| ==> ApartAt(p, f, centers[j], a)
  }

  ghost predicate ApartRule(y: Youth, names: seq<string>, centers: seq<CenterRec>, a: Assignment) {
    forall f :: f in Present(Choices(y)) && f in names ==> Apart(y.name, f, centers, a)
  }

  lemma ApartAtMeaning(p: string, f: string, c: CenterRec, a: Assignment)
    requires Boolean(a)
    ensures HoldsAll(FriendSepCenterOf(p, f, c).cons, a) <==> ApartAt(p, f, c, a)
  {
    ConcatHolds(c.crews, FriendSepCrew(p, f, c), a);
    forall l | 0 <= l < |c.crews|
      ensures HoldsAll(FriendSepCrew(p, f, c)(c.crews[l]).cons, a) <==>
              !(a(PersonCrew(p, c.name, c.crews[l].name)) == 1 && a(PersonCrew(f, c.name, c.crews[l].name)) == 1)
    {
      var x, z := PersonCrew(p, c.name, c.crews[l].name), PersonCrew(f, c.name, c.crews[l].name);
      HoldsCons1(AtMost(Plus(Var1(x), Var1(z)), Const(1)), a);
      EvalPlus(Var1(x), Var1(z), a);
      EvalVar1(x, a);
      EvalVar1(z, a);
    }
  }

  lemma ApartMeaning(p: string, f: string, centers: seq<CenterRec>, a: Assignment)
    requires Boolean(a)
    ensures HoldsAll(Concat(centers, FriendSepCenter(p, f)).cons, a) <==> Apart(p, f, centers, a)
  {
    ConcatHolds(centers, FriendSepCenter(p, f), a);
    forall j | 0 <= j < |centers|
      ensures HoldsAll(FriendSepCenter(p, f)(centers[j]).cons, a) <==> ApartAt(p, f, centers[j], a)
    {
      ApartAtMeaning(p, f, centers[j], a);
    }
  }

  lemma FriendSepFriendsMeaning(y: Youth, names: seq<string>, centers: seq<CenterRec>, a: Assignment)
    requires Boolean(a)
    ensures HoldsAll(FriendSepFriends(y, names, centers).cons, a) <==> ApartRule(y, names, centers, a)
  {
    var fs := Present(Choices(y));
    ConcatHolds(fs, FriendSepOf(y.name, names, centers), a);
    forall t | 0 <= t < |fs|
      ensures HoldsAll(FriendSepOf(y.name, names, centers)(fs[t]).cons, a) <==>
              (fs[t] in names ==> Apart(y.name, fs[t], centers, a))
    {
      ApartMeaning(y.name, fs[t], centers, a);
    }
    if ApartRule(y, names, centers, a) {
      assert forall t :: 0 <= t < |fs| && fs[t] in names ==> Apart(y.name, fs[t], centers, a);
    }
    if forall t :: 0 <= t < |fs| && fs[t] in names ==> Apart(y.name, fs[t], centers, a) {
      forall f | f in fs && f in names
        ensures Apart(y.name, f, centers, a)
      {
        var t :| 0 <= t < |fs| && fs[t] == f;
      }
    }
  }

  /**
   * Over 0/1 values, the separation constraints hold exactly when no person shares a crew with
   * any friend they chose who is on the roster.
   */
  lemma FriendSeparationMeaning(ps: seq<Youth>, centers: seq<CenterRec>, a: Assignment)
    requires Boolean(a)
    ensures HoldsAll(FriendSeparation(ps, centers).cons, a) <==>
            forall i :: 0 <= i < |ps| ==> ApartRule(ps[i], Names(ps), centers, a)
  {
    ConcatHolds(ps, FriendSepFor(Names(ps), centers), a);
    forall i | 0 <= i < |ps|
      ensures HoldsAll(FriendSepFor(Names(ps), centers)(ps[i]).cons, a) <==> ApartRule(ps[i], Names(ps), centers, a)
    {
      FriendSepFriendsMeaning(ps[i], Names(ps), centers, a);
    }
  }

  method AddFriendSepCenter(m: CpModel, p: string, f: string, c: CenterRec)
    modifies m
    ensures m.Extends(old(m.vars), old(m.constraints), FriendSepCenterOf(p, f, c))
    ensures m.objective == old(m.objective)
  {
    ghost var vars0, cons0 := m.vars, m.constraints;
    for l := 0 to |c.crews|
      invariant m.Extends(vars0, cons0, Concat(c.crews[..l], FriendSepCrew(p, f, c)))
      invariant m.objective == old(m.objective)
    {
      var k := c.crews[l];
      ghost var vars1, cons1 := m.vars, m.constraints;
      m.Add(AtMost(Plus(Var1(PersonCrew(p, c.name, k.name)), Var1(PersonCrew(f, c.name, k.name))), Const(1)));
      GrowStep(c.crews, l, FriendSepCrew(p, f, c), vars0, cons0, vars1, cons1, m.vars, m.constraints);
    }
    assert c.crews[..|c.crews|] == c.crews;
  }

  method AddFriendSepCenters(m: CpModel, p: string, f: string, centers: seq<CenterRec>)
    modifies m
    ensures m.Extends(old(m.vars), old(m.constraints), Concat(centers, FriendSepCenter(p, f)))
    ensures m.objective == old(m.objective)
  {
    ghost var vars0, cons0 := m.vars, m.constraints;
    for j := 0 to |centers|
      invariant m.Extends(vars0, cons0, Concat(centers[..j], FriendSepCenter(p, f)))
      invariant m.objective == old(m.objective)
    {
      ghost var vars1, cons1 := m.vars, m.constraints;
      AddFriendSepCenter(m, p, f, centers[j]);
      GrowStep(centers, j, FriendSepCenter(p, f), vars0, cons0, vars1, cons1, m.vars, m.constraints);
    }
    assert centers[..|centers|] == centers;
  }

  method AddFriendSepFriends(m: CpModel, y: Youth, names: seq<string>, centers: seq<CenterRec>)
    modifies m
    ensures m.Extends(old(m.vars), old(m.constraints), FriendSepFriends(y, names, centers))
    ensures m.objective == old(m.objective)
  {
    var fs := Present(Choices(y));
    ghost var vars0, cons0 := m.vars, m.constraints;
    for t := 0 to |fs|
      invariant m.Extends(vars0, cons0, Concat(fs[..t], FriendSepOf(y.name, names, centers)))
      invariant m.objective == old(m.objective)
    {
      ghost var vars1, cons1 := m.vars, m.constraints;
      if fs[t] in names {
        AddFriendSepCenters(m, y.name, fs[t], centers);
      }
      GrowStep(fs, t, FriendSepOf(y.name, names, centers), vars0, cons0, vars1, cons1, m.vars, m.constraints);
    }
    assert fs[..|fs|] == fs;
  }

  method EnforceFriendSeparation(m: CpModel, ps: seq<Youth>, centers: seq<CenterRec>)
    modifies m
    ensures m.Extends(old(m.vars), old(m.constraints), FriendSeparation(ps, centers))
    ensures m.objective == old(m.objective)
  {
    var names := Names(ps);
    ghost var vars0, cons0 := m.vars, m.constraints;
    for i := 0 to |ps|
      invariant m.Extends(vars0, cons0, Concat(ps[..i], FriendSepFor(names, centers)))
      invariant m.objective == old(m.objective)
    {
      ghost var vars1, cons1 := m.vars, m.constraints;
      AddFriendSepFriends(m, ps[i], names, centers);
      GrowStep(ps, i, FriendSepFor(names, centers), vars0, cons0, vars1, cons1, m.vars, m.constraints);
    }
    assert ps[..|ps|] == ps;
  }

  // ================================================================ friend center

  function FriendCenterAtOf(p: string, fs: seq<string>, c: CenterRec): Emission {
    Cons1(AtMost(Var1(PersonCenter(p, c.name)), Sum(FriendsAt(fs, c.name))))
  }

  function FriendCenterAt(p: string, fs: seq<string>): CenterRec -> Emission {
    (c: CenterRec) => FriendCenterAtOf(p, fs, c)
  }

  /** Nothing for a person without a friend choice on the roster. */
  function FriendCenterOf(y: Youth, names: seq<string>, centers: seq<CenterRec>): Emission {
    var fs := Known(Choices(y), names);
    if |fs| == 0 then Nothing else Concat(centers, FriendCenterAt(y.name, fs))
  }

  function FriendCenterFor(names: seq<string>, centers: seq<CenterRec>): Youth -> Emission {
    (y: Youth) => FriendCenterOf(y, names, centers)
  }

  function FriendCenter(ps: seq<Youth>, centers: seq<CenterRec>): Emission {
    Concat(ps, FriendCenterFor(Names(ps), centers))
  }

  /** If `p` is at `c`, one of the friends `fs` is at `c` too. */
  ghost predicate NearFriendAt(p: string, fs: seq<string>, c: CenterRec, a: Assignment) {
    a(PersonCenter(p, c.name)) == 1 ==> exists t :: 0 <= t < |fs| && a(PersonCenter(fs[t], c.name)) == 1
  }

  ghost predicate NearFriendRule(y: Youth, names: seq<string>, centers: seq<CenterRec>, a: Assignment) {
    forall j :: 0 <= j < |centers| ==> NearFriendAt(y.name, Known(Choices(y), names), centers[j], a)
  }

  lemma NearFriendAtMeaning(p: string, fs: seq<string>, c: CenterRec, a: Assignment)
    requires Boolean(a)
    ensures HoldsAll(FriendCenterAtOf(p, fs, c).cons, a) <==> NearFriendAt(p, fs, c, a)
  {
    var vs := FriendsAt(fs, c.name);
    HoldsCons1(AtMost(Var1(PersonCenter(p, c.name)), Sum(vs)), a);
    EvalVar1(PersonCenter(p, c.name), a);
    EvalSum(vs, a);
    BooleanBits(vs, a);
    CountPositive(vs, a);
    CountBounds(vs, a);
    if Some1(vs, a) {
      var t :| 0 <= t < |vs| && a(vs[t]) == 1;
      assert a(PersonCenter(fs[t], c.name)) == 1;
    }
    if exists t :: 0 <= t < |fs| && a(PersonCenter(fs[t], c.name)) == 1 {
      var t :| 0 <= t < |fs| && a(PersonCenter(fs[t], c.name)) == 1;
      assert a(vs[t]) == 1;
    }
  }

  lemma FriendCenterOfMeaning(y: Youth, names: seq<string>, centers: seq<CenterRec>, a: Assignment)
    requires Boolean(a)
    ensures HoldsAll(FriendCenterOf(y, names, centers).cons, a) <==>
            (|Known(Choices(y), names)| > 0 ==> NearFriendRule(y, names, centers, a))
  {
    var fs := Known(Choices(y), names);
    if |fs| > 0 {
      ConcatHolds(centers, FriendCenterAt(y.name, fs), a);
      forall j | 0 <= j < |centers|
        ensures HoldsAll(FriendCenterAt(y.name, fs)(centers[j]).cons, a) <==> NearFriendAt(y.name, fs, centers[j], a)
      {
        NearFriendAtMeaning(y.name, fs, centers[j], a);
      }
    }
  }

  /**
   * Over 0/1 values, the friend-center constraints hold exactly when every person with a
   * friend choice on the roster shares each of their centers with one such friend.
   */
  lemma FriendCenterMeaning(ps: seq<Youth>, centers: seq<CenterRec>, a: Assignment)
    requires Boolean(a)
    ensures HoldsAll(FriendCenter(ps, centers).cons, a) <==>
            forall i :: 0 <= i < |ps| && |Known(Choices(ps[i]), Names(ps))| > 0 ==>
              NearFriendRule(ps[i], Names(ps), centers, a)
  {
    ConcatHolds(ps, FriendCenterFor(Names(ps), centers), a);
    forall i | 0 <= i < |ps|
      ensures HoldsAll(FriendCenterFor(Names(ps), centers)(ps[i]).cons, a) <==>
              (|Known(Choices(ps[i]), Names(ps))| > 0 ==> NearFriendRule(ps[i], Names(ps), centers, a))
    {
      FriendCenterOfMeaning(ps[i], Names(ps), centers, a);
    }
  }

  /**
   * Separation and center together: a youth in a crew with a chosen friend at that center is
   * impossible, yet some chosen friend shares the center.
   */
  lemma FriendNearButApart(ps: seq<Youth>, centers: seq<CenterRec>, a: Assignment, i: nat, j: nat)
    requires Boolean(a)
    requires HoldsAll(FriendSeparation(ps, centers).cons, a) && HoldsAll(FriendCenter(ps, centers).cons, a)
    requires i < |ps| && j < |centers| && a(PersonCenter(ps[i].name, centers[j].name)) == 1
    requires |Known(Choices(ps[i]), Names(ps))| > 0
    ensures exists f :: f in Known(Choices(ps[i]), Names(ps)) && a(PersonCenter(f, centers[j].name)) == 1
                        && Apart(ps[i].name, f, centers, a)
  {
    FriendSeparationMeaning(ps, centers, a);
    FriendCenterMeaning(ps, centers, a);
    var fs := Known(Choices(ps[i]), Names(ps));
    assert NearFriendAt(ps[i].name, fs, centers[j], a);
    var t :| 0 <= t < |fs| && a(PersonCenter(fs[t], centers[j].name)) == 1;
    assert Some(fs[t]) in Choices(ps[i]);
    assert fs[t] in Present(Choices(ps[i]));
    assert ApartRule(ps[i], Names(ps), centers, a);
  }

  method AddFriendCenterOf(m: CpModel, y: Youth, names: seq<string>, centers: seq<CenterRec>)
    modifies m
    ensures m.Extends(old(m.vars), old(m.constraints), FriendCenterOf(y, names, centers))
    ensures m.objective == old(m.objective)
  {
    var fs := Known(Choices(y), names);
    if |fs| > 0 {
      ghost var vars0, cons0 := m.vars, m.constraints;
      for j := 0 to |centers|
        invariant m.Extends(vars0, cons0, Concat(centers[..j], FriendCenterAt(y.name, fs)))
        invariant m.objective == old(m.objective)
      {
        var c := centers[j];
        ghost var vars1, cons1 := m.vars, m.constraints;
        m.Add(AtMost(Var1(PersonCenter(y.name, c.name)), Sum(FriendsAt(fs, c.name))));
        GrowStep(centers, j, FriendCenterAt(y.name, fs), vars0, cons0, vars1, cons1, m.vars, m.constraints);
      }
      assert centers[..|centers|] == centers;
    } else {
      assert m.Extends(old(m.vars), old(m.constraints), Nothing);
    }
  }

  method EnforceFriendCenter(m: CpModel, ps: seq<Youth>, centers: seq<CenterRec>)
    modifies m
    ensures m.Extends(old(m.vars), old(m.constraints), FriendCenter(ps, centers))
    ensures m.objective == old(m.objective)
  {
    var names := Names(ps);
    ghost var vars0, cons0 := m.vars, m.constraints;
    for i := 0 to |ps|
      invariant m.Extends(vars0, cons0, Concat(ps[..i], FriendCenterFor(names, centers)))
      invariant m.objective == old(m.objective)
    {
      ghost var vars1, cons1 := m.vars, m.constraints;
      AddFriendCenterOf(m, ps[i], names, centers);
      GrowStep(ps, i, FriendCenterFor(names, centers), vars0, cons0, vars1, cons1, m.vars, m.constraints);
    }
    assert ps[..|ps|] == ps;
  }
}
