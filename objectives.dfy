/**
 * The soft goals of the crew-assignment model. Each builder declares helper variables, ties
 * them to the assignment variables with linear constraints, and returns weighted objective
 * terms: friends at the same center, gender balance, year coverage and history balance.
 */
module Objectives {
  import opened Wrappers
  import opened Linear
  import opened Models
  import opened Config
  import opened Variables
  import opened FamilyConstraints

  // ================================================================ friend preference

  /** One entry of the per-youth `{choice: weight}` dictionary. */
  datatype Weighted = Weighted(friend: Option<string>, weight: int)

  function Keys(ws: seq<Weighted>): (ks: seq<Option<string>>)
    ensures |ks| == |ws| && forall i :: 0 <= i < |ws| ==> ks[i] == ws[i].friend
  {
    seq(|ws|, i requires 0 <= i < |ws| => ws[i].friend)
  }

  predicate Distinct(ws: seq<Weighted>) {
    forall i, j :: 0 <= i < j < |ws| ==> ws[i].friend != ws[j].friend
  }

  /** The first position of `k` in `ks`. */
  function IndexOf(ks: seq<Option<string>>, k: Option<string>): (i: nat)
    requires k in ks
    ensures i < |ks| && ks[i] == k
    ensures forall j :: 0 <= j < i ==> ks[j] != k
  {
    if ks[0] == k then 0 else 1 + IndexOf(ks[1..], k)
  }

  /** Dictionary assignment `d[k] = w`: an existing key keeps its place and takes the new weight. */
  function Insert(ws: seq<Weighted>, k: Option<string>, w: int): seq<Weighted> {
    if k in Keys(ws) then ws[IndexOf(Keys(ws), k) := Weighted(k, w)] else ws + [Weighted(k, w)]
  }

  /**
   * After `d[k] = w` the keys are the old ones plus `k`, `k` carries `w`, every other entry is
   * an old one, and keys stay distinct.
   */
  lemma InsertMeaning(ws: seq<Weighted>, k: Option<string>, w: int)
    ensures forall x :: x in Keys(Insert(ws, k, w)) <==> x == k || x in Keys(ws)
    ensures Distinct(ws) ==> forall i :: 0 <= i < |Insert(ws, k, w)| && Insert(ws, k, w)[i].friend == k ==>
              Insert(ws, k, w)[i].weight == w
    ensures forall i :: 0 <= i < |Insert(ws, k, w)| && Insert(ws, k, w)[i].friend != k ==> Insert(ws, k, w)[i] in ws
    ensures Distinct(ws) ==> Distinct(Insert(ws, k, w))
  {
    var r := Insert(ws, k, w);
    if k in Keys(ws) {
      var i := IndexOf(Keys(ws), k);
      assert Keys(r) == Keys(ws);
      assert forall j :: 0 <= j < |r| && j != i ==> r[j] == ws[j] && r[j] in ws;
    } else {
      assert Keys(r) == Keys(ws) + [k];
      assert forall j :: 0 <= j < |ws| ==> r[j] == ws[j] && r[j] in ws;
    }
  }

  /** The weight the dictionary literal leaves for `x`: the last rank naming `x` wins. */
  function RankWeight(y: Youth, x: Option<string>): int {
    if y.thirdChoice == x then 1 else if y.secondChoice == x then 2 else 3
  }

  /** A dictionary literal: its items assigned left to right. */
  function InsertAll(ws: seq<Weighted>, items: seq<Weighted>): seq<Weighted>
    decreases |items|
  {
    if |items| == 0 then ws else InsertAll(Insert(ws, items[0].friend, items[0].weight), items[1..])
  }

  /** `{first_choice: 3, second_choice: 2, third_choice: 1}`, in insertion order. */
  function FriendWeights(y: Youth): seq<Weighted> {
    InsertAll([], [Weighted(y.firstChoice, 3), Weighted(y.secondChoice, 2), Weighted(y.thirdChoice, 1)])
  }

  lemma FriendWeightsSteps(y: Youth)
    ensures FriendWeights(y) == Insert(Insert(Insert([], y.firstChoice, 3), y.secondChoice, 2), y.thirdChoice, 1)
  {
    var items := [Weighted(y.firstChoice, 3), Weighted(y.secondChoice, 2), Weighted(y.thirdChoice, 1)];
    var w1 := Insert([], y.firstChoice, 3);
    var w2 := Insert(w1, y.secondChoice, 2);
    assert items[1..] == [Weighted(y.secondChoice, 2), Weighted(y.thirdChoice, 1)];
    assert items[1..][1..] == [Weighted(y.thirdChoice, 1)];
    assert items[1..][1..][1..] == [];
    assert InsertAll(w2, items[1..][1..]) == Insert(w2, y.thirdChoice, 1);
    assert InsertAll(w1, items[1..]) == InsertAll(w2, items[1..][1..]);
  }

  /**
   * The dictionary has one entry per distinct choice (`None` included), and each entry carries
   * the weight of the last rank that names it.
   */
  lemma FriendWeightsMeaning(y: Youth)
    ensures Distinct(FriendWeights(y))
    ensures forall i :: 0 <= i < |FriendWeights(y)| ==>
              FriendWeights(y)[i].friend in Choices(y) &&
              FriendWeights(y)[i].weight == RankWeight(y, FriendWeights(y)[i].friend)
    ensures forall x :: x in Choices(y) ==> x in Keys(FriendWeights(y))
  {
    var w1 := Insert([], y.firstChoice, 3);
    var w2 := Insert(w1, y.secondChoice, 2);
    var ws := Insert(w2, y.thirdChoice, 1);
    FriendWeightsSteps(y);
    InsertMeaning([], y.firstChoice, 3);
    InsertMeaning(w1, y.secondChoice, 2);
    InsertMeaning(w2, y.thirdChoice, 1);
    forall i | 0 <= i < |ws|
      ensures ws[i].friend in Choices(y) && ws[i].weight == RankWeight(y, ws[i].friend)
    {
      if ws[i].friend != y.thirdChoice {
        assert ws[i] in w2;
        var i2 :| 0 <= i2 < |w2| && w2[i2] == ws[i];
        if w2[i2].friend != y.secondChoice {
          assert w2[i2] in w1;
        }
      }
    }
    assert Choices(y) == [y.firstChoice, y.secondChoice, y.thirdChoice];
  }

  /** A young adult sits at a fixed center: its friend is rewarded directly for being there. */
  function FriendAtOf(cfg: Config, y: Youth, f: string, w: int, c: CenterRec): Emission {
    if y.role == "Young Adult" then
      if OnRoster(y.name, c) then Emission([], [], [Term(cfg.friendWeight * w, PersonCenter(f, c.name))])
      else Nothing
    else
      var s := SameCenter(y.name, f, c.name);
      Emission([Decl(s, 0, 1)], AndLink(s, PersonCenter(y.name, c.name), PersonCenter(f, c.name)),
               [Term(cfg.friendWeight * w, s)])
  }

  function FriendAt(cfg: Config, y: Youth, f: string, w: int): CenterRec -> Emission {
    (c: CenterRec) => FriendAtOf(cfg, y, f, w, c)
  }

  /** Only entries naming someone on the roster contribute. */
  function FriendItemOf(cfg: Config, y: Youth, names: seq<string>, centers: seq<CenterRec>, e: Weighted): Emission {
    if e.friend.Some? && e.friend.value in names then Concat(centers, FriendAt(cfg, y, e.friend.value, e.weight))
    else Nothing
  }

  function FriendItem(cfg: Config, y: Youth, names: seq<string>, centers: seq<CenterRec>): Weighted -> Emission {
    (e: Weighted) => FriendItemOf(cfg, y, names, centers, e)
  }

  function FriendPrefOf(cfg: Config, y: Youth, names: seq<string>, centers: seq<CenterRec>): Emission {
    Concat(FriendWeights(y), FriendItem(cfg, y, names, centers))
  }

  function FriendPrefFor(cfg: Config, names: seq<string>, centers: seq<CenterRec>): Youth -> Emission {
    (y: Youth) => FriendPrefOf(cfg, y, names, centers)
  }

  function FriendPreference(cfg: Config, ps: seq<Youth>, centers: seq<CenterRec>): Emission {
    Concat(ps, FriendPrefFor(cfg, Names(ps), centers))
  }

  /** Every `same_center` flag is 0 or 1, as `NewBoolVar` declares it. */
  ghost predicate SameBits(a: Assignment) {
    forall p, f, c :: a(SameCenter(p, f, c)) == 0 || a(SameCenter(p, f, c)) == 1
  }

  /** Both at center `c`: 1, else 0. */
  function Both(a: Assignment, p: string, f: string, c: string): int {
    if a(PersonCenter(p, c)) == 1 && a(PersonCenter(f, c)) == 1 then 1 else 0
  }

  /** For anyone but a young adult, the flag `same_center[p, f, c]` is the conjunction of the two center variables. */
  ghost predicate FlagsAt(y: Youth, f: string, centers: seq<CenterRec>, a: Assignment) {
    y.role != "Young Adult" ==>
      forall j :: 0 <= j < |centers| ==> a(SameCenter(y.name, f, centers[j].name)) == Both(a, y.name, f, centers[j].name)
  }

  ghost predicate FlagsOf(y: Youth, names: seq<string>, centers: seq<CenterRec>, a: Assignment) {
    forall i :: 0 <= i < |FriendWeights(y)| && FriendWeights(y)[i].friend.Some? && FriendWeights(y)[i].friend.value in names ==>
      FlagsAt(y, FriendWeights(y)[i].friend.value, centers, a)
  }

  lemma FriendAtMeaning(cfg: Config, y: Youth, f: string, w: int, c: CenterRec, a: Assignment)
    requires Boolean(a) && SameBits(a)
    ensures HoldsAll(FriendAtOf(cfg, y, f, w, c).cons, a) <==>
            (y.role != "Young Adult" ==> a(SameCenter(y.name, f, c.name)) == Both(a, y.name, f, c.name))
  {
    if y.role != "Young Adult" {
      var s, x, z := SameCenter(y.name, f, c.name), PersonCenter(y.name, c.name), PersonCenter(f, c.name);
      assert Bits([s, x, z], a) by {
        assert [s, x, z][0] == s && [s, x, z][1] == x && [s, x, z][2] == z;
      }
      AndLinkMeaning(s, x, z, a);
    }
  }

  /**
   * The objective contribution of one (person, friend, center) triple: the weighted flag, or for a
   * young adult on a roster at `c`, the weighted center variable of the friend.
   */
  lemma FriendAtValue(cfg: Config, y: Youth, f: string, w: int, c: CenterRec, a: Assignment)
    requires Boolean(a) && SameBits(a) && HoldsAll(FriendAtOf(cfg, y, f, w, c).cons, a)
    ensures TermsValue(FriendAtOf(cfg, y, f, w, c).terms, a) ==
            if y.role == "Young Adult" then (if OnRoster(y.name, c) then cfg.friendWeight * w * a(PersonCenter(f, c.name)) else 0)
            else cfg.friendWeight * w * Both(a, y.name, f, c.name)
  {
    FriendAtMeaning(cfg, y, f, w, c, a);
    if y.role == "Young Adult" {
      if OnRoster(y.name, c) {
        TermsValue1(Term(cfg.friendWeight * w, PersonCenter(f, c.name)), a);
      }
    } else {
      TermsValue1(Term(cfg.friendWeight * w, SameCenter(y.name, f, c.name)), a);
    }
  }

  lemma FriendItemMeaning(cfg: Config, y: Youth, names: seq<string>, centers: seq<CenterRec>, e: Weighted, a: Assignment)
    requires Boolean(a) && SameBits(a)
    ensures HoldsAll(FriendItemOf(cfg, y, names, centers, e).cons, a) <==>
            (e.friend.Some? && e.friend.value in names ==> FlagsAt(y, e.friend.value, centers, a))
  {
    if e.friend.Some? && e.friend.value in names {
      var f := e.friend.value;
      ConcatHolds(centers, FriendAt(cfg, y, f, e.weight), a);
      forall j | 0 <= j < |centers|
        ensures HoldsAll(FriendAt(cfg, y, f, e.weight)(centers[j]).cons, a) <==>
                (y.role != "Young Adult" ==> a(SameCenter(y.name, f, centers[j].name)) == Both(a, y.name, f, centers[j].name))
      {
        FriendAtMeaning(cfg, y, f, e.weight, centers[j], a);
      }
    }
  }

  lemma FriendPrefOfMeaning(cfg: Config, y: Youth, names: seq<string>, centers: seq<CenterRec>, a: Assignment)
    requires Boolean(a) && SameBits(a)
    ensures HoldsAll(FriendPrefOf(cfg, y, names, centers).cons, a) <==> FlagsOf(y, names, centers, a)
  {
    var ws := FriendWeights(y);
    ConcatHolds(ws, FriendItem(cfg, y, names, centers), a);
    forall i | 0 <= i < |ws|
      ensures HoldsAll(FriendItem(cfg, y, names, centers)(ws[i]).cons, a) <==>
              (ws[i].friend.Some? && ws[i].friend.value in names ==> FlagsAt(y, ws[i].friend.value, centers, a))
    {
      FriendItemMeaning(cfg, y, names, centers, ws[i], a);
    }
  }

  /**
   * Over 0/1 values, the friend-preference constraints hold exactly when every `same_center`
   * flag of a person who is not a young adult is 1 exactly when both are at that center.
   */
  lemma FriendPreferenceMeaning(cfg: Config, ps: seq<Youth>, centers: seq<CenterRec>, a: Assignment)
    requires Boolean(a) && SameBits(a)
    ensures HoldsAll(FriendPreference(cfg, ps, centers).cons, a) <==>
            forall i :: 0 <= i < |ps| ==> FlagsOf(ps[i], Names(ps), centers, a)
  {
    ConcatHolds(ps, FriendPrefFor(cfg, Names(ps), centers), a);
    forall i | 0 <= i < |ps|
      ensures HoldsAll(FriendPrefFor(cfg, Names(ps), centers)(ps[i]).cons, a) <==> FlagsOf(ps[i], Names(ps), centers, a)
    {
      FriendPrefOfMeaning(cfg, ps[i], Names(ps), centers, a);
    }
  }

  /** With a non-negative friend weight, every friend term rewards: its coefficient is between 0 and three times the weight. */
  lemma FriendCoefs(cfg: Config, ps: seq<Youth>, centers: seq<CenterRec>)
    requires cfg.friendWeight >= 0
    ensures CoefsWithin(FriendPreference(cfg, ps, centers).terms, 0, 3 * cfg.friendWeight)
  {
    var names := Names(ps);
    forall i | 0 <= i < |ps|
      ensures CoefsWithin(FriendPrefFor(cfg, names, centers)(ps[i]).terms, 0, 3 * cfg.friendWeight)
    {
      var y := ps[i];
      var ws := FriendWeights(y);
      FriendWeightsMeaning(y);
      forall t | 0 <= t < |ws|
        ensures CoefsWithin(FriendItem(cfg, y, names, centers)(ws[t]).terms, 0, 3 * cfg.friendWeight)
      {
        var e := ws[t];
        assert 1 <= e.weight <= 3;
        if e.friend.Some? && e.friend.value in names {
          forall j | 0 <= j < |centers|
            ensures CoefsWithin(FriendAt(cfg, y, e.friend.value, e.weight)(centers[j]).terms, 0, 3 * cfg.friendWeight)
          {
            assert 0 <= cfg.friendWeight * e.weight <= 3 * cfg.friendWeight;
          }
          ConcatCoefs(centers, FriendAt(cfg, y, e.friend.value, e.weight), 0, 3 * cfg.friendWeight);
        }
      }
      ConcatCoefs(ws, FriendItem(cfg, y, names, centers), 0, 3 * cfg.friendWeight);
    }
    ConcatCoefs(ps, FriendPrefFor(cfg, names, centers), 0, 3 * cfg.friendWeight);
  }

  method AddFriendAt(m: CpModel, cfg: Config, y: Youth, f: string, w: int, c: CenterRec) returns (ts: seq<Term>)
    modifies m
    ensures m.Extends(old(m.vars), old(m.constraints), FriendAtOf(cfg, y, f, w, c))
    ensures ts == FriendAtOf(cfg, y, f, w, c).terms
    ensures m.objective == old(m.objective)
  {
    ts := [];
    if y.role == "Young Adult" {
      if OnRoster(y.name, c) {
        ts := [Term(cfg.friendWeight * w, PersonCenter(f, c.name))];
      }
    } else {
      var s := m.NewBoolVar(SameCenter(y.name, f, c.name));
      var x, z := PersonCenter(y.name, c.name), PersonCenter(f, c.name);
      m.Add(AtMost(Var1(s), Var1(x)));
      m.Add(AtMost(Var1(s), Var1(z)));
      m.Add(AtLeast(Var1(s), Plus(Plus(Var1(x), Var1(z)), Const(-1))));
      ts := [Term(cfg.friendWeight * w, s)];
    }
  }

  method AddFriendItem(m: CpModel, cfg: Config, y: Youth, names: seq<string>, centers: seq<CenterRec>, e: Weighted)
    returns (ts: seq<Term>)
    modifies m
    ensures m.Extends(old(m.vars), old(m.constraints), FriendItemOf(cfg, y, names, centers, e))
    ensures ts == FriendItemOf(cfg, y, names, centers, e).terms
    ensures m.objective == old(m.objective)
  {
    ts := [];
    if e.friend.Some? && e.friend.value in names {
      var f := e.friend.value;
      ghost var vars0, cons0 := m.vars, m.constraints;
      for j := 0 to |centers|
        invariant m.Extends(vars0, cons0, Concat(centers[..j], FriendAt(cfg, y, f, e.weight)))
        invariant ts == Concat(centers[..j], FriendAt(cfg, y, f, e.weight)).terms
        invariant m.objective == old(m.objective)
      {
        ghost var vars1, cons1, ts0 := m.vars, m.constraints, ts;
        var more := AddFriendAt(m, cfg, y, f, e.weight, centers[j]);
        ts := ts + more;
        GrowStep(centers, j, FriendAt(cfg, y, f, e.weight), vars0, cons0, vars1, cons1, m.vars, m.constraints);
        CollectStep(centers, j, FriendAt(cfg, y, f, e.weight), ts0, ts);
      }
      assert centers[..|centers|] == centers;
    } else {
      assert m.Extends(old(m.vars), old(m.constraints), Nothing);
    }
  }

  method AddFriendPrefOf(m: CpModel, cfg: Config, y: Youth, names: seq<string>, centers: seq<CenterRec>)
    returns (ts: seq<Term>)
    modifies m
    ensures m.Extends(old(m.vars), old(m.constraints), FriendPrefOf(cfg, y, names, centers))
    ensures ts == FriendPrefOf(cfg, y, names, centers).terms
    ensures m.objective == old(m.objective)
  {
    var ws := FriendWeights(y);
    ts := [];
    ghost var vars0, cons0 := m.vars, m.constraints;
    for t := 0 to |ws|
      invariant m.Extends(vars0, cons0, Concat(ws[..t], FriendItem(cfg, y, names, centers)))
      invariant ts == Concat(ws[..t], FriendItem(cfg, y, names, centers)).terms
      invariant m.objective == old(m.objective)
    {
      ghost var vars1, cons1, ts0 := m.vars, m.constraints, ts;
      var more := AddFriendItem(m, cfg, y, names, centers, ws[t]);
      ts := ts + more;
      GrowStep(ws, t, FriendItem(cfg, y, names, centers), vars0, cons0, vars1, cons1, m.vars, m.constraints);
      CollectStep(ws, t, FriendItem(cfg, y, names, centers), ts0, ts);
    }
    assert ws[..|ws|] == ws;
  }

  /** Declares the flags, links them, and returns the weighted friend terms of every person. */
  method AddFriendPreference(m: CpModel, cfg: Config, ps: seq<Youth>, centers: seq<CenterRec>)
    returns (ts: seq<Term>)
    modifies m
    ensures m.Extends(old(m.vars), old(m.constraints), FriendPreference(cfg, ps, centers))
    ensures ts == FriendPreference(cfg, ps, centers).terms
    ensures m.objective == old(m.objective)
  {
    var names := Names(ps);
    ts := [];
    ghost var vars0, cons0 := m.vars, m.constraints;
    for i := 0 to |ps|
      invariant m.Extends(vars0, cons0, Concat(ps[..i], FriendPrefFor(cfg, names, centers)))
      invariant ts == Concat(ps[..i], FriendPrefFor(cfg, names, centers)).terms
      invariant m.objective == old(m.objective)
    {
      ghost var vars1, cons1, ts0 := m.vars, m.constraints, ts;
      var more := AddFriendPrefOf(m, cfg, ps[i], names, centers);
      ts := ts + more;
      GrowStep(ps, i, FriendPrefFor(cfg, names, centers), vars0, cons0, vars1, cons1, m.vars, m.constraints);
      CollectStep(ps, i, FriendPrefFor(cfg, names, centers), ts0, ts);
    }
    assert ps[..|ps|] == ps;
  }

  // ================================================================ per-crew balance and coverage

  /** Number of crews over all centers. */
  function TotalCrews(cs: seq<CenterRec>): nat
    decreases |cs|
  {
    if |cs| == 0 then 0 else TotalCrews(cs[..|cs| - 1]) + |cs[|cs| - 1].crews|
  }

  /** Youth with trait `t` in crew `k` of center `c`: `sum(person_crew[...] for youth if ...)`. */
  function Tally(ps: seq<Youth>, t: Trait, c: CenterRec, k: CrewRec): LinExpr {
    Sum(Assigned(ps, t, c.name, k.name))
  }

  /**
   * A balance variable in `0..max_crew_size`, bounded by the two tallies, with weight `w`:
   * the gender and the history goals.
   */
  function BalanceAtOf(b: Var, lo: LinExpr, hi: LinExpr, cfg: Config, w: int): Emission {
    Emission([Decl(b, 0, cfg.maxCrewSize)], MinBound(b, lo, hi), [Term(w, b)])
  }

  function GenderAtOf(cfg: Config, ps: seq<Youth>, c: CenterRec, k: CrewRec): Emission {
    BalanceAtOf(GenderBalance(c.name, k.name), Tally(ps, Gender("F"), c, k), Tally(ps, Gender("M"), c, k),
                cfg, cfg.genderWeight)
  }

  function GenderAt(cfg: Config, ps: seq<Youth>, c: CenterRec): CrewRec -> Emission {
    (k: CrewRec) => GenderAtOf(cfg, ps, c, k)
  }

  function GenderCenter(cfg: Config, ps: seq<Youth>): CenterRec -> Emission {
    (c: CenterRec) => Concat(c.crews, GenderAt(cfg, ps, c))
  }

  function GenderDiversity(cfg: Config, ps: seq<Youth>, centers: seq<CenterRec>): Emission {
    Concat(centers, GenderCenter(cfg, ps))
  }

  function HistoryAtOf(cfg: Config, ps: seq<Youth>, c: CenterRec, k: CrewRec): Emission {
    BalanceAtOf(HistoryBalance(c.name, k.name), Tally(ps, History("V"), c, k), Tally(ps, History("N"), c, k),
                cfg, cfg.historyWeight)
  }

  function HistoryAt(cfg: Config, ps: seq<Youth>, c: CenterRec): CrewRec -> Emission {
    (k: CrewRec) => HistoryAtOf(cfg, ps, c, k)
  }

  function HistoryCenter(cfg: Config, ps: seq<Youth>): CenterRec -> Emission {
    (c: CenterRec) => Concat(c.crews, HistoryAt(cfg, ps, c))
  }

  function HistoryDiversity(cfg: Config, ps: seq<Youth>, centers: seq<CenterRec>): Emission {
    Concat(centers, HistoryCenter(cfg, ps))
  }

  /** The grade levels the year goal covers, in order. */
  const Years: seq<string> := ["Fr", "So", "Jr", "Sr"]

  function YearAtOf(cfg: Config, ps: seq<Youth>, c: CenterRec, k: CrewRec, yr: string): Emission {
    var h := HasYear(c.name, k.name, yr);
    Emission([Decl(h, 0, 1)], Presence(h, Tally(ps, Year(yr), c, k)), [Term(cfg.yearWeight, h)])
  }

  function YearAt(cfg: Config, ps: seq<Youth>, c: CenterRec, k: CrewRec): string -> Emission {
    (yr: string) => YearAtOf(cfg, ps, c, k, yr)
  }

  function YearCrew(cfg: Config, ps: seq<Youth>, c: CenterRec): CrewRec -> Emission {
    (k: CrewRec) => Concat(Years, YearAt(cfg, ps, c, k))
  }

  function YearCenter(cfg: Config, ps: seq<Youth>): CenterRec -> Emission {
    (c: CenterRec) => Concat(c.crews, YearCrew(cfg, ps, c))
  }

  function YearDiversity(cfg: Config, ps: seq<Youth>, centers: seq<CenterRec>): Emission {
    Concat(centers, YearCenter(cfg, ps))
  }

  /** Within its domain, a balance variable obeys its bounds exactly when it is at most the smaller tally (and the cap). */
  ghost predicate BalancedAt(b: Var, x: int, y: int, cap: int, a: Assignment) {
    0 <= a(b) <= Min(Min(x, y), cap)
  }

  lemma BalanceAtMeaning(b: Var, lo: LinExpr, hi: LinExpr, cfg: Config, w: int, a: Assignment)
    ensures (InDomain(BalanceAtOf(b, lo, hi, cfg, w).decls, a) && HoldsAll(BalanceAtOf(b, lo, hi, cfg, w).cons, a))
        <==> BalancedAt(b, Eval(lo, a), Eval(hi, a), cfg.maxCrewSize, a)
  {
    MinBoundMeaning(b, lo, hi, cfg.maxCrewSize, a);
    assert BalanceAtOf(b, lo, hi, cfg, w).decls[0] == Decl(b, 0, cfg.maxCrewSize);
  }

  /** Every crew's gender balance lies between 0 and the smaller of its female and male counts. */
  ghost predicate GenderBalanced(cfg: Config, ps: seq<Youth>, c: CenterRec, a: Assignment) {
    forall l :: 0 <= l < |c.crews| ==>
      BalancedAt(GenderBalance(c.name, c.crews[l].name),
                 Count(Assigned(ps, Gender("F"), c.name, c.crews[l].name), a),
                 Count(Assigned(ps, Gender("M"), c.name, c.crews[l].name), a), cfg.maxCrewSize, a)
  }

  lemma GenderCenterMeaning(cfg: Config, ps: seq<Youth>, c: CenterRec, a: Assignment)
    ensures (InDomain(GenderCenter(cfg, ps)(c).decls, a) && HoldsAll(GenderCenter(cfg, ps)(c).cons, a))
        <==> GenderBalanced(cfg, ps, c, a)
  {
    ConcatHolds(c.crews, GenderAt(cfg, ps, c), a);
    ConcatInDomain(c.crews, GenderAt(cfg, ps, c), a);
    forall l | 0 <= l < |c.crews|
      ensures (InDomain(GenderAt(cfg, ps, c)(c.crews[l]).decls, a) && HoldsAll(GenderAt(cfg, ps, c)(c.crews[l]).cons, a))
          <==> BalancedAt(GenderBalance(c.name, c.crews[l].name),
                          Count(Assigned(ps, Gender("F"), c.name, c.crews[l].name), a),
                          Count(Assigned(ps, Gender("M"), c.name, c.crews[l].name), a), cfg.maxCrewSize, a)
    {
      var k := c.crews[l];
      EvalSum(Assigned(ps, Gender("F"), c.name, k.name), a);
      EvalSum(Assigned(ps, Gender("M"), c.name, k.name), a);
      BalanceAtMeaning(GenderBalance(c.name, k.name), Tally(ps, Gender("F"), c, k), Tally(ps, Gender("M"), c, k),
                       cfg, cfg.genderWeight, a);
    }
  }

  /**
   * The gender variables within their domains satisfy their bounds exactly when each lies between
   * 0 and the smaller of its crew's female and male counts; maximising it yields that minimum.
   */
  lemma GenderDiversityMeaning(cfg: Config, ps: seq<Youth>, centers: seq<CenterRec>, a: Assignment)
    ensures (InDomain(GenderDiversity(cfg, ps, centers).decls, a) && HoldsAll(GenderDiversity(cfg, ps, centers).cons, a))
        <==> forall j :: 0 <= j < |centers| ==> GenderBalanced(cfg, ps, centers[j], a)
  {
    ConcatHolds(centers, GenderCenter(cfg, ps), a);
    ConcatInDomain(centers, GenderCenter(cfg, ps), a);
    forall j | 0 <= j < |centers|
      ensures (InDomain(GenderCenter(cfg, ps)(centers[j]).decls, a) && HoldsAll(GenderCenter(cfg, ps)(centers[j]).cons, a))
          <==> GenderBalanced(cfg, ps, centers[j], a)
    {
      GenderCenterMeaning(cfg, ps, centers[j], a);
    }
  }

  /** Every crew's history balance lies between 0 and the smaller of its veteran and new counts. */
  ghost predicate HistoryBalanced(cfg: Config, ps: seq<Youth>, c: CenterRec, a: Assignment) {
    forall l :: 0 <= l < |c.crews| ==>
      BalancedAt(HistoryBalance(c.name, c.crews[l].name),
                 Count(Assigned(ps, History("V"), c.name, c.crews[l].name), a),
                 Count(Assigned(ps, History("N"), c.name, c.crews[l].name), a), cfg.maxCrewSize, a)
  }

  lemma HistoryCenterMeaning(cfg: Config, ps: seq<Youth>, c: CenterRec, a: Assignment)
    ensures (InDomain(HistoryCenter(cfg, ps)(c).decls, a) && HoldsAll(HistoryCenter(cfg, ps)(c).cons, a))
        <==> HistoryBalanced(cfg, ps, c, a)
  {
    ConcatHolds(c.crews, HistoryAt(cfg, ps, c), a);
    ConcatInDomain(c.crews, HistoryAt(cfg, ps, c), a);
    forall l | 0 <= l < |c.crews|
      ensures (InDomain(HistoryAt(cfg, ps, c)(c.crews[l]).decls, a) && HoldsAll(HistoryAt(cfg, ps, c)(c.crews[l]).cons, a))
          <==> BalancedAt(HistoryBalance(c.name, c.crews[l].name),
                          Count(Assigned(ps, History("V"), c.name, c.crews[l].name), a),
                          Count(Assigned(ps, History("N"), c.name, c.crews[l].name), a), cfg.maxCrewSize, a)
    {
      var k := c.crews[l];
      EvalSum(Assigned(ps, History("V"), c.name, k.name), a);
      EvalSum(Assigned(ps, History("N"), c.name, k.name), a);
      BalanceAtMeaning(HistoryBalance(c.name, k.name), Tally(ps, History("V"), c, k), Tally(ps, History("N"), c, k),
                       cfg, cfg.historyWeight, a);
    }
  }

  /** The history variables within their domains satisfy their bounds exactly when each is at most its crew's smaller experience count. */
  lemma HistoryDiversityMeaning(cfg: Config, ps: seq<Youth>, centers: seq<CenterRec>, a: Assignment)
    ensures (InDomain(HistoryDiversity(cfg, ps, centers).decls, a) && HoldsAll(HistoryDiversity(cfg, ps, centers).cons, a))
        <==> forall j :: 0 <= j < |centers| ==> HistoryBalanced(cfg, ps, centers[j], a)
  {
    ConcatHolds(centers, HistoryCenter(cfg, ps), a);
    ConcatInDomain(centers, HistoryCenter(cfg, ps), a);
    forall j | 0 <= j < |centers|
      ensures (InDomain(HistoryCenter(cfg, ps)(centers[j]).decls, a) && HoldsAll(HistoryCenter(cfg, ps)(centers[j]).cons, a))
          <==> HistoryBalanced(cfg, ps, centers[j], a)
    {
      HistoryCenterMeaning(cfg, ps, centers[j], a);
    }
  }

  /** The flag `has_year[c, k, yr]` is 1 exactly when some youth of year `yr` is in crew `k`. */
  ghost predicate YearFlagged(ps: seq<Youth>, c: CenterRec, k: CrewRec, yr: string, a: Assignment) {
    a(HasYear(c.name, k.name, yr)) == if Some1(Assigned(ps, Year(yr), c.name, k.name), a) then 1 else 0
  }

  ghost predicate YearsFlagged(ps: seq<Youth>, c: CenterRec, a: Assignment) {
    forall l, t :: 0 <= l < |c.crews| && 0 <= t < |Years| ==> YearFlagged(ps, c, c.crews[l], Years[t], a)
  }

  lemma YearAtMeaning(cfg: Config, ps: seq<Youth>, c: CenterRec, k: CrewRec, yr: string, a: Assignment)
    requires Boolean(a)
    ensures (InDomain(YearAtOf(cfg, ps, c, k, yr).decls, a) && HoldsAll(YearAtOf(cfg, ps, c, k, yr).cons, a))
        <==> YearFlagged(ps, c, k, yr, a)
  {
    var h := HasYear(c.name, k.name, yr);
    var vs := Assigned(ps, Year(yr), c.name, k.name);
    assert YearAtOf(cfg, ps, c, k, yr).decls[0] == Decl(h, 0, 1);
    assert InDomain(YearAtOf(cfg, ps, c, k, yr).decls, a) <==> 0 <= a(h) <= 1;
    EvalSum(vs, a);
    BooleanBits(vs, a);
    CountBounds(vs, a);
    CountPositive(vs, a);
    if a(h) == 0 || a(h) == 1 {
      PresenceMeaning(h, Tally(ps, Year(yr), c, k), a);
    }
  }

  lemma YearCrewMeaning(cfg: Config, ps: seq<Youth>, c: CenterRec, k: CrewRec, a: Assignment)
    requires Boolean(a)
    ensures (InDomain(YearCrew(cfg, ps, c)(k).decls, a) && HoldsAll(YearCrew(cfg, ps, c)(k).cons, a))
        <==> forall t :: 0 <= t < |Years| ==> YearFlagged(ps, c, k, Years[t], a)
  {
    ConcatHolds(Years, YearAt(cfg, ps, c, k), a);
    ConcatInDomain(Years, YearAt(cfg, ps, c, k), a);
    forall t | 0 <= t < |Years|
      ensures (InDomain(YearAt(cfg, ps, c, k)(Years[t]).decls, a) && HoldsAll(YearAt(cfg, ps, c, k)(Years[t]).cons, a))
          <==> YearFlagged(ps, c, k, Years[t], a)
    {
      YearAtMeaning(cfg, ps, c, k, Years[t], a);
    }
  }

  lemma YearCenterMeaning(cfg: Config, ps: seq<Youth>, c: CenterRec, a: Assignment)
    requires Boolean(a)
    ensures (InDomain(YearCenter(cfg, ps)(c).decls, a) && HoldsAll(YearCenter(cfg, ps)(c).cons, a))
        <==> YearsFlagged(ps, c, a)
  {
    ConcatHolds(c.crews, YearCrew(cfg, ps, c), a);
    ConcatInDomain(c.crews, YearCrew(cfg, ps, c), a);
    forall l | 0 <= l < |c.crews|
      ensures (InDomain(YearCrew(cfg, ps, c)(c.crews[l]).decls, a) && HoldsAll(YearCrew(cfg, ps, c)(c.crews[l]).cons, a))
          <==> forall t :: 0 <= t < |Years| ==> YearFlagged(ps, c, c.crews[l], Years[t], a)
    {
      YearCrewMeaning(cfg, ps, c, c.crews[l], a);
    }
  }

  /**
   * Over 0/1 assignment variables, the year flags within their domains satisfy their guarded
   * constraints exactly when each flag says whether its year is represented in its crew.
   */
  lemma YearDiversityMeaning(cfg: Config, ps: seq<Youth>, centers: seq<CenterRec>, a: Assignment)
    requires Boolean(a)
    ensures (InDomain(YearDiversity(cfg, ps, centers).decls, a) && HoldsAll(YearDiversity(cfg, ps, centers).cons, a))
        <==> forall j :: 0 <= j < |centers| ==> YearsFlagged(ps, centers[j], a)
  {
    ConcatHolds(centers, YearCenter(cfg, ps), a);
    ConcatInDomain(centers, YearCenter(cfg, ps), a);
    forall j | 0 <= j < |centers|
      ensures (InDomain(YearCenter(cfg, ps)(centers[j]).decls, a) && HoldsAll(YearCenter(cfg, ps)(centers[j]).cons, a))
          <==> YearsFlagged(ps, centers[j], a)
    {
      YearCenterMeaning(cfg, ps, centers[j], a);
    }
  }

  /** One gender term per crew. */
  lemma {:induction false} GenderTermCount(cfg: Config, ps: seq<Youth>, centers: seq<CenterRec>)
    ensures |GenderDiversity(cfg, ps, centers).terms| == TotalCrews(centers)
    decreases |centers|
  {
    if |centers| > 0 {
      var n := |centers| - 1;
      GenderTermCount(cfg, ps, centers[..n]);
      ConcatTermCount(centers[n].crews, GenderAt(cfg, ps, centers[n]), 1);
    }
  }

  /** One history term per crew. */
  lemma {:induction false} HistoryTermCount(cfg: Config, ps: seq<Youth>, centers: seq<CenterRec>)
    ensures |HistoryDiversity(cfg, ps, centers).terms| == TotalCrews(centers)
    decreases |centers|
  {
    if |centers| > 0 {
      var n := |centers| - 1;
      HistoryTermCount(cfg, ps, centers[..n]);
      ConcatTermCount(centers[n].crews, HistoryAt(cfg, ps, centers[n]), 1);
    }
  }

  /** Four year terms (and four flags) per crew. */
  lemma {:induction false} YearTermCount(cfg: Config, ps: seq<Youth>, centers: seq<CenterRec>)
    ensures |YearDiversity(cfg, ps, centers).terms| == 4 * TotalCrews(centers)
    ensures |YearDiversity(cfg, ps, centers).decls| == 4 * TotalCrews(centers)
    decreases |centers|
  {
    if |centers| > 0 {
      var n := |centers| - 1;
      var c := centers[n];
      YearTermCount(cfg, ps, centers[..n]);
      forall k | k in c.crews
        ensures |YearCrew(cfg, ps, c)(k).terms| == 4 && |YearCrew(cfg, ps, c)(k).decls| == 4
      {
        ConcatTermCount(Years, YearAt(cfg, ps, c, k), 1);
        ConcatDeclCount(Years, YearAt(cfg, ps, c, k), 1);
      }
      ConcatTermCount(c.crews, YearCrew(cfg, ps, c), 4);
      ConcatDeclCount(c.crews, YearCrew(cfg, ps, c), 4);
    }
  }

  /** Every gender term is the balance variable weighted by exactly `gender_weight`. */
  lemma GenderCoefs(cfg: Config, ps: seq<Youth>, centers: seq<CenterRec>)
    ensures CoefsWithin(GenderDiversity(cfg, ps, centers).terms, cfg.genderWeight, cfg.genderWeight)
  {
    var w := cfg.genderWeight;
    forall j | 0 <= j < |centers|
      ensures CoefsWithin(GenderCenter(cfg, ps)(centers[j]).terms, w, w)
    {
      ConcatCoefs(centers[j].crews, GenderAt(cfg, ps, centers[j]), w, w);
    }
    ConcatCoefs(centers, GenderCenter(cfg, ps), w, w);
  }

  /** Every history term is the balance variable weighted by exactly `history_weight`. */
  lemma HistoryCoefs(cfg: Config, ps: seq<Youth>, centers: seq<CenterRec>)
    ensures CoefsWithin(HistoryDiversity(cfg, ps, centers).terms, cfg.historyWeight, cfg.historyWeight)
  {
    var w := cfg.historyWeight;
    forall j | 0 <= j < |centers|
      ensures CoefsWithin(HistoryCenter(cfg, ps)(centers[j]).terms, w, w)
    {
      ConcatCoefs(centers[j].crews, HistoryAt(cfg, ps, centers[j]), w, w);
    }
    ConcatCoefs(centers, HistoryCenter(cfg, ps), w, w);
  }

  /** Every year term is a year flag weighted by exactly `year_weight`. */
  lemma YearCoefs(cfg: Config, ps: seq<Youth>, centers: seq<CenterRec>)
    ensures CoefsWithin(YearDiversity(cfg, ps, centers).terms, cfg.yearWeight, cfg.yearWeight)
  {
    var w := cfg.yearWeight;
    forall j | 0 <= j < |centers|
      ensures CoefsWithin(YearCenter(cfg, ps)(centers[j]).terms, w, w)
    {
      var c := centers[j];
      forall l | 0 <= l < |c.crews|
        ensures CoefsWithin(YearCrew(cfg, ps, c)(c.crews[l]).terms, w, w)
      {
        ConcatCoefs(Years, YearAt(cfg, ps, c, c.crews[l]), w, w);
      }
      ConcatCoefs(c.crews, YearCrew(cfg, ps, c), w, w);
    }
    ConcatCoefs(centers, YearCenter(cfg, ps), w, w);
  }

  method AddBalanceAt(m: CpModel, cfg: Config, b: Var, lo: LinExpr, hi: LinExpr, w: int) returns (ts: seq<Term>)
    modifies m
    ensures m.Extends(old(m.vars), old(m.constraints), BalanceAtOf(b, lo, hi, cfg, w))
    ensures ts == BalanceAtOf(b, lo, hi, cfg, w).terms
    ensures m.objective == old(m.objective)
  {
    var v := m.NewIntVar(0, cfg.maxCrewSize, b);
    m.Add(AtMost(Var1(v), lo));
    m.Add(AtMost(Var1(v), hi));
    ts := [Term(w, v)];
  }

  method AddGenderCenter(m: CpModel, cfg: Config, ps: seq<Youth>, c: CenterRec) returns (ts: seq<Term>)
    modifies m
    ensures m.Extends(old(m.vars), old(m.constraints), GenderCenter(cfg, ps)(c))
    ensures ts == GenderCenter(cfg, ps)(c).terms
    ensures m.objective == old(m.objective)
  {
    ts := [];
    ghost var vars0, cons0 := m.vars, m.constraints;
    for l := 0 to |c.crews|
      invariant m.Extends(vars0, cons0, Concat(c.crews[..l], GenderAt(cfg, ps, c)))
      invariant ts == Concat(c.crews[..l], GenderAt(cfg, ps, c)).terms
      invariant m.objective == old(m.objective)
    {
      var k := c.crews[l];
      ghost var vars1, cons1, ts0 := m.vars, m.constraints, ts;
      var more := AddBalanceAt(m, cfg, GenderBalance(c.name, k.name),
                               Sum(Assigned(ps, Gender("F"), c.name, k.name)),
                               Sum(Assigned(ps, Gender("M"), c.name, k.name)), cfg.genderWeight);
      ts := ts + more;
      GrowStep(c.crews, l, GenderAt(cfg, ps, c), vars0, cons0, vars1, cons1, m.vars, m.constraints);
      CollectStep(c.crews, l, GenderAt(cfg, ps, c), ts0, ts);
    }
    assert c.crews[..|c.crews|] == c.crews;
  }

  /** Declares a gender balance variable per crew and returns its weighted terms. */
  method AddGenderDiversity(m: CpModel, cfg: Config, ps: seq<Youth>, centers: seq<CenterRec>) returns (ts: seq<Term>)
    modifies m
    ensures m.Extends(old(m.vars), old(m.constraints), GenderDiversity(cfg, ps, centers))
    ensures ts == GenderDiversity(cfg, ps, centers).terms
    ensures m.objective == old(m.objective)
  {
    ts := [];
    ghost var vars0, cons0 := m.vars, m.constraints;
    for j := 0 to |centers|
      invariant m.Extends(vars0, cons0, Concat(centers[..j], GenderCenter(cfg, ps)))
      invariant ts == Concat(centers[..j], GenderCenter(cfg, ps)).terms
      invariant m.objective == old(m.objective)
    {
      ghost var vars1, cons1, ts0 := m.vars, m.constraints, ts;
      var more := AddGenderCenter(m, cfg, ps, centers[j]);
      ts := ts + more;
      GrowStep(centers, j, GenderCenter(cfg, ps), vars0, cons0, vars1, cons1, m.vars, m.constraints);
      CollectStep(centers, j, GenderCenter(cfg, ps), ts0, ts);
    }
    assert centers[..|centers|] == centers;
  }

  method AddHistoryCenter(m: CpModel, cfg: Config, ps: seq<Youth>, c: CenterRec) returns (ts: seq<Term>)
    modifies m
    ensures m.Extends(old(m.vars), old(m.constraints), HistoryCenter(cfg, ps)(c))
    ensures ts == HistoryCenter(cfg, ps)(c).terms
    ensures m.objective == old(m.objective)
  {
    ts := [];
    ghost var vars0, cons0 := m.vars, m.constraints;
    for l := 0 to |c.crews|
      invariant m.Extends(vars0, cons0, Concat(c.crews[..l], HistoryAt(cfg, ps, c)))
      invariant ts == Concat(c.crews[..l], HistoryAt(cfg, ps, c)).terms
      invariant m.objective == old(m.objective)
    {
      var k := c.crews[l];
      ghost var vars1, cons1, ts0 := m.vars, m.constraints, ts;
      var more := AddBalanceAt(m, cfg, HistoryBalance(c.name, k.name),
                               Sum(Assigned(ps, History("V"), c.name, k.name)),
                               Sum(Assigned(ps, History("N"), c.name, k.name)), cfg.historyWeight);
      ts := ts + more;
      GrowStep(c.crews, l, HistoryAt(cfg, ps, c), vars0, cons0, vars1, cons1, m.vars, m.constraints);
      CollectStep(c.crews, l, HistoryAt(cfg, ps, c), ts0, ts);
    }
    assert c.crews[..|c.crews|] == c.crews;
  }

  /** Declares a history balance variable per crew and returns its weighted terms. */
  method AddHistoryDiversity(m: CpModel, cfg: Config, ps: seq<Youth>, centers: seq<CenterRec>) returns (ts: seq<Term>)
    modifies m
    ensures m.Extends(old(m.vars), old(m.constraints), HistoryDiversity(cfg, ps, centers))
    ensures ts == HistoryDiversity(cfg, ps, centers).terms
    ensures m.objective == old(m.objective)
  {
    ts := [];
    ghost var vars0, cons0 := m.vars, m.constraints;
    for j := 0 to |centers|
      invariant m.Extends(vars0, cons0, Concat(centers[..j], HistoryCenter(cfg, ps)))
      invariant ts == Concat(centers[..j], HistoryCenter(cfg, ps)).terms
      invariant m.objective == old(m.objective)
    {
      ghost var vars1, cons1, ts0 := m.vars, m.constraints, ts;
      var more := AddHistoryCenter(m, cfg, ps, centers[j]);
      ts := ts + more;
      GrowStep(centers, j, HistoryCenter(cfg, ps), vars0, cons0, vars1, cons1, m.vars, m.constraints);
      CollectStep(centers, j, HistoryCenter(cfg, ps), ts0, ts);
    }
    assert centers[..|centers|] == centers;
  }

  method AddYearCrew(m: CpModel, cfg: Config, ps: seq<Youth>, c: CenterRec, k: CrewRec) returns (ts: seq<Term>)
    modifies m
    ensures m.Extends(old(m.vars), old(m.constraints), YearCrew(cfg, ps, c)(k))
    ensures ts == YearCrew(cfg, ps, c)(k).terms
    ensures m.objective == old(m.objective)
  {
    var years := ["Fr", "So", "Jr", "Sr"];
    ts := [];
    ghost var vars0, cons0 := m.vars, m.constraints;
    for t := 0 to |years|
      invariant m.Extends(vars0, cons0, Concat(years[..t], YearAt(cfg, ps, c, k)))
      invariant ts == Concat(years[..t], YearAt(cfg, ps, c, k)).terms
      invariant m.objective == old(m.objective)
    {
      var yr := years[t];
      ghost var vars1, cons1, ts0 := m.vars, m.constraints, ts;
      var count := Sum(Assigned(ps, Year(yr), c.name, k.name));
      var h := m.NewBoolVar(HasYear(c.name, k.name, yr));
      m.Add(Constraint(count, Ge, Const(1), When(h)));
      m.Add(Constraint(count, Eq, Const(0), Unless(h)));
      ts := ts + [Term(cfg.yearWeight, h)];
      GrowStep(years, t, YearAt(cfg, ps, c, k), vars0, cons0, vars1, cons1, m.vars, m.constraints);
      CollectStep(years, t, YearAt(cfg, ps, c, k), ts0, ts);
    }
    assert years[..|years|] == Years;
  }

  method AddYearCenter(m: CpModel, cfg: Config, ps: seq<Youth>, c: CenterRec) returns (ts: seq<Term>)
    modifies m
    ensures m.Extends(old(m.vars), old(m.constraints), YearCenter(cfg, ps)(c))
    ensures ts == YearCenter(cfg, ps)(c).terms
    ensures m.objective == old(m.objective)
  {
    ts := [];
    ghost var vars0, cons0 := m.vars, m.constraints;
    for l := 0 to |c.crews|
      invariant m.Extends(vars0, cons0, Concat(c.crews[..l], YearCrew(cfg, ps, c)))
      invariant ts == Concat(c.crews[..l], YearCrew(cfg, ps, c)).terms
      invariant m.objective == old(m.objective)
    {
      ghost var vars1, cons1, ts0 := m.vars, m.constraints, ts;
      var more := AddYearCrew(m, cfg, ps, c, c.crews[l]);
      ts := ts + more;
      GrowStep(c.crews, l, YearCrew(cfg, ps, c), vars0, cons0, vars1, cons1, m.vars, m.constraints);
      CollectStep(c.crews, l, YearCrew(cfg, ps, c), ts0, ts);
    }
    assert c.crews[..|c.crews|] == c.crews;
  }

  /** Declares a presence flag per crew and year and returns their weighted terms. */
  method AddYearDiversity(m: CpModel, cfg: Config, ps: seq<Youth>, centers: seq<CenterRec>) returns (ts: seq<Term>)
    modifies m
    ensures m.Extends(old(m.vars), old(m.constraints), YearDiversity(cfg, ps, centers))
    ensures ts == YearDiversity(cfg, ps, centers).terms
    ensures m.objective == old(m.objective)
  {
    ts := [];
    ghost var vars0, cons0 := m.vars, m.constraints;
    for j := 0 to |centers|
      invariant m.Extends(vars0, cons0, Concat(centers[..j], YearCenter(cfg, ps)))
      invariant ts == Concat(centers[..j], YearCenter(cfg, ps)).terms
      invariant m.objective == old(m.objective)
    {
      ghost var vars1, cons1, ts0 := m.vars, m.constraints, ts;
      var more := AddYearCenter(m, cfg, ps, centers[j]);
      ts := ts + more;
      GrowStep(centers, j, YearCenter(cfg, ps), vars0, cons0, vars1, cons1, m.vars, m.constraints);
      CollectStep(centers, j, YearCenter(cfg, ps), ts0, ts);
    }
    assert centers[..|centers|] == centers;
  }
}
