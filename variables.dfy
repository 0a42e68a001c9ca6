/**
 * The decision variables of the crew-assignment model, as the builders pick them out:
 * `person_center[p, c]`, `person_crew[p, c, k]`, and the sums over them that the
 * constraints and objective terms are written with.
 */
module Variables {
  import opened Linear
  import opened Models

  /** Every person/center and person/crew variable is 0 or 1, as `NewBoolVar` declares them. */
  ghost predicate Boolean(a: Assignment) {
    && (forall p, c :: a(PersonCenter(p, c)) == 0 || a(PersonCenter(p, c)) == 1)
    && (forall p, c, k :: a(PersonCrew(p, c, k)) == 0 || a(PersonCrew(p, c, k)) == 1)
  }

  predicate PersonVars(vs: seq<Var>) {
    forall i :: 0 <= i < |vs| ==> vs[i].PersonCenter? || vs[i].PersonCrew?
  }

  lemma BooleanBits(vs: seq<Var>, a: Assignment)
    requires Boolean(a) && PersonVars(vs)
    ensures Bits(vs, a)
  {
  }

  lemma BitsAppend(xs: seq<Var>, ys: seq<Var>, a: Assignment)
    requires Bits(xs + ys, a)
    ensures Bits(xs, a) && Bits(ys, a)
  {
    assert forall i :: 0 <= i < |xs| ==> (xs + ys)[i] == xs[i];
    assert forall i :: 0 <= i < |ys| ==> (xs + ys)[|xs| + i] == ys[i];
  }

  /** `person_crew[p, c, k]` for every crew `k` of center `c`, in roster order. */
  function CenterCrewVars(p: string, c: CenterRec): (vs: seq<Var>)
    ensures |vs| == |c.crews| && PersonVars(vs)
    ensures forall l :: 0 <= l < |c.crews| ==> vs[l] == PersonCrew(p, c.name, c.crews[l].name)
  {
    seq(|c.crews|, l requires 0 <= l < |c.crews| => PersonCrew(p, c.name, c.crews[l].name))
  }

  /** `person_crew[p, c, k]` for every center `c` and crew `k`, centers outermost. */
  function CrewVars(p: string, cs: seq<CenterRec>): (vs: seq<Var>)
    ensures PersonVars(vs)
    decreases |cs|
  {
    if |cs| == 0 then [] else CrewVars(p, cs[..|cs| - 1]) + CenterCrewVars(p, cs[|cs| - 1])
  }

  /** `person_center[p, c]` for every center `c`. */
  function CenterVars(p: string, cs: seq<CenterRec>): (vs: seq<Var>)
    ensures |vs| == |cs| && PersonVars(vs)
    ensures forall j :: 0 <= j < |cs| ==> vs[j] == PersonCenter(p, cs[j].name)
  {
    seq(|cs|, j requires 0 <= j < |cs| => PersonCenter(p, cs[j].name))
  }

  /** `person_center[f, c]` for every friend `f`, at one center. */
  function FriendsAt(fs: seq<string>, c: string): (vs: seq<Var>)
    ensures |vs| == |fs| && PersonVars(vs)
    ensures forall i :: 0 <= i < |fs| ==> vs[i] == PersonCenter(fs[i], c)
  {
    seq(|fs|, i requires 0 <= i < |fs| => PersonCenter(fs[i], c))
  }

  /** The attribute a sum filters on: `youth.role == r`, `youth.gender == g`, and so on. */
  datatype Trait = Role(role: string) | Gender(gender: string) | Year(year: string) | History(history: string)

  predicate Has(y: Youth, t: Trait) {
    match t
    case Role(r) => y.role == r
    case Gender(g) => y.gender == g
    case Year(yr) => y.year == yr
    case History(h) => y.history == h
  }

  /** `person_crew[y, c, k]` for the persons `y` with trait `t`, in list order. */
  function Assigned(ps: seq<Youth>, t: Trait, c: string, k: string): (vs: seq<Var>)
    ensures |vs| <= |ps| && PersonVars(vs)
    decreases |ps|
  {
    if |ps| == 0 then []
    else
      var last := ps[|ps| - 1];
      Assigned(ps[..|ps| - 1], t, c, k) + (if Has(last, t) then [PersonCrew(last.name, c, k)] else [])
  }

  /** A sum over a trait counts exactly the crew variables of the persons that have it. */
  lemma {:induction false} AssignedMembers(ps: seq<Youth>, t: Trait, c: string, k: string, v: Var)
    ensures v in Assigned(ps, t, c, k) <==>
            exists i :: 0 <= i < |ps| && Has(ps[i], t) && v == PersonCrew(ps[i].name, c, k)
    decreases |ps|
  {
    if |ps| > 0 {
      var n := |ps| - 1;
      AssignedMembers(ps[..n], t, c, k, v);
      if exists i :: 0 <= i < n && Has(ps[..n][i], t) && v == PersonCrew(ps[..n][i].name, c, k) {
        var i :| 0 <= i < n && Has(ps[..n][i], t) && v == PersonCrew(ps[..n][i].name, c, k);
        assert ps[i] == ps[..n][i];
      }
      if exists i :: 0 <= i < |ps| && Has(ps[i], t) && v == PersonCrew(ps[i].name, c, k) {
        var i :| 0 <= i < |ps| && Has(ps[i], t) && v == PersonCrew(ps[i].name, c, k);
        if i < n {
          assert ps[i] == ps[..n][i];
        }
      }
    }
  }

  /** The persons with role 'Youth', in list order: the source's `regular_youth`. */
  function RegularYouth(ps: seq<Youth>): (rs: seq<Youth>)
    ensures |rs| <= |ps|
    ensures forall y :: y in rs <==> y in ps && y.role == "Youth"
    decreases |ps|
  {
    if |ps| == 0 then []
    else
      var n := |ps| - 1;
      RegularYouth(ps[..n]) + (if ps[n].role == "Youth" then [ps[n]] else [])
  }

  /** Every role-'Youth' entry is kept as often as it occurs, and nothing else is kept. */
  lemma {:induction false} RegularYouthCounts(ps: seq<Youth>)
    ensures forall y :: multiset(RegularYouth(ps))[y] == if y.role == "Youth" then multiset(ps)[y] else 0
    decreases |ps|
  {
    if |ps| > 0 {
      var n := |ps| - 1;
      RegularYouthCounts(ps[..n]);
      assert ps == ps[..n] + [ps[n]];
    }
  }

  /** One entry is kept exactly when its role is 'Youth'. */
  lemma RegularYouthOne(y: Youth)
    ensures RegularYouth([y]) == if y.role == "Youth" then [y] else []
  {
    assert [y][..0] == [];
  }

  /** The filter works entry by entry, so it keeps the list order: filtering a concatenation concatenates the filtered parts. */
  lemma {:induction false} RegularYouthAppend(xs: seq<Youth>, ys: seq<Youth>)
    ensures RegularYouth(xs + ys) == RegularYouth(xs) + RegularYouth(ys)
    decreases |ys|
  {
    if |ys| == 0 {
      assert xs + ys == xs;
    } else {
      var n := |ys| - 1;
      assert (xs + ys)[..|xs + ys| - 1] == xs + ys[..n];
      RegularYouthAppend(xs, ys[..n]);
    }
  }

  /** Filtering out everyone but role 'Youth' leaves every role-'Youth' sum unchanged. */
  lemma {:induction false} AssignedRegular(ps: seq<Youth>, c: string, k: string)
    ensures Assigned(RegularYouth(ps), Role("Youth"), c, k) == Assigned(ps, Role("Youth"), c, k)
    decreases |ps|
  {
    if |ps| > 0 {
      var n := |ps| - 1;
      AssignedRegular(ps[..n], c, k);
      var rs := RegularYouth(ps[..n]);
      if ps[n].role == "Youth" {
        assert RegularYouth(ps) == rs + [ps[n]];
        assert (rs + [ps[n]])[..|rs|] == rs;
      } else {
        assert RegularYouth(ps) == rs;
      }
    }
  }
}
