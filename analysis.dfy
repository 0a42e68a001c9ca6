/**
 * Reports over a solved model. The solver is abstracted as the 0/1 value it gives each
 * variable; the reports count people per center, score friend choices met at a center, and
 * tally how many youth got their first, second and third choice.
 */
module Analysis {
  import opened Wrappers
  import opened Linear
  import opened Models
  import opened Variables
  import opened Objectives
  import opened Cleaning
  import opened LpModel

  // ================================================================ solver status

  /** CP-SAT's status codes. */
  const Unknown := 0
  const ModelInvalid := 1
  const Feasible := 2
  const Infeasible := 3
  const Optimal := 4

  /** `status_to_string`: the four named statuses by name, anything else as "UNKNOWN". */
  function StatusToString(status: int): (r: string)
    ensures r in ["OPTIMAL", "FEASIBLE", "INFEASIBLE", "MODEL_INVALID", "UNKNOWN"]
    ensures r == "UNKNOWN" <==> status !in {Optimal, Feasible, Infeasible, ModelInvalid}
    ensures status == Optimal ==> r == "OPTIMAL"
    ensures status == Feasible ==> r == "FEASIBLE"
    ensures status == Infeasible ==> r == "INFEASIBLE"
    ensures status == ModelInvalid ==> r == "MODEL_INVALID"
  {
    if status == Optimal then "OPTIMAL"
    else if status == Feasible then "FEASIBLE"
    else if status == Infeasible then "INFEASIBLE"
    else if status == ModelInvalid then "MODEL_INVALID"
    else "UNKNOWN"
  }

  /** Distinct named statuses get distinct names. */
  lemma StatusNamesDistinct(s: int, t: int)
    requires s in {Optimal, Feasible, Infeasible, ModelInvalid}
    requires StatusToString(s) == StatusToString(t)
    ensures s == t
  {
    var names := ["OPTIMAL", "FEASIBLE", "INFEASIBLE", "MODEL_INVALID", "UNKNOWN"];
    assert names[0] != names[1] && names[0] != names[2] && names[0] != names[3] && names[0] != names[4];
    assert names[1] != names[2] && names[1] != names[3] && names[1] != names[4];
    assert names[2] != names[3] && names[2] != names[4] && names[3] != names[4];
  }

  // ================================================================ sums over youth and centers

  function Bit(b: bool): nat {
    if b then 1 else 0
  }

  /** `solver.Value(person_center[p, c]) == 1`. */
  predicate AtCenter(a: Assignment, p: string, c: string) {
    a(PersonCenter(p, c)) == 1
  }

  /** A quantity per (youth, center name). */
  type Grid = (Youth, string) -> int

  /** The sum of `g(y, n)` over the youth `y`. */
  function ColSum(ps: seq<Youth>, n: string, g: Grid): int
    decreases |ps|
  {
    if |ps| == 0 then 0 else ColSum(ps[..|ps| - 1], n, g) + g(ps[|ps| - 1], n)
  }

  /** The sum of `g(y, c.name)` over the centers `c`. */
  function RowSum(y: Youth, cs: seq<CenterRec>, g: Grid): int
    decreases |cs|
  {
    if |cs| == 0 then 0 else RowSum(y, cs[..|cs| - 1], g) + g(y, cs[|cs| - 1].name)
  }

  lemma RowSumStep(y: Youth, cs: seq<CenterRec>, j: nat, g: Grid)
    requires j < |cs|
    ensures RowSum(y, cs[..j + 1], g) == RowSum(y, cs[..j], g) + g(y, cs[j].name)
  {
    assert cs[..j + 1][..j] == cs[..j];
  }

  /** Youth outermost, centers inside: the order the reports loop in. */
  function YouthSum(ps: seq<Youth>, cs: seq<CenterRec>, g: Grid): int
    decreases |ps|
  {
    if |ps| == 0 then 0 else YouthSum(ps[..|ps| - 1], cs, g) + RowSum(ps[|ps| - 1], cs, g)
  }

  /** Centers outermost: the sum over the per-center entries. */
  function CenterSum(ps: seq<Youth>, cs: seq<CenterRec>, g: Grid): int
    decreases |cs|
  {
    if |cs| == 0 then 0 else CenterSum(ps, cs[..|cs| - 1], g) + ColSum(ps, cs[|cs| - 1].name, g)
  }

  lemma {:induction false} YouthSumStep(ps: seq<Youth>, cs: seq<CenterRec>, g: Grid)
    requires |cs| > 0
    ensures YouthSum(ps, cs, g) == YouthSum(ps, cs[..|cs| - 1], g) + ColSum(ps, cs[|cs| - 1].name, g)
    decreases |ps|
  {
    if |ps| > 0 {
      YouthSumStep(ps[..|ps| - 1], cs, g);
    }
  }

  /** Summing youth by youth and center by center gives the same total. */
  lemma {:induction false} SumSwap(ps: seq<Youth>, cs: seq<CenterRec>, g: Grid)
    ensures YouthSum(ps, cs, g) == CenterSum(ps, cs, g)
    decreases |cs|
  {
    if |cs| == 0 {
      YouthSumZero(ps, g);
    } else {
      YouthSumStep(ps, cs, g);
      SumSwap(ps, cs[..|cs| - 1], g);
    }
  }

  lemma {:induction false} YouthSumZero(ps: seq<Youth>, g: Grid)
    ensures YouthSum(ps, [], g) == 0
    decreases |ps|
  {
    if |ps| > 0 {
      YouthSumZero(ps[..|ps| - 1], g);
    }
  }

  /** The number of centers named `n`: how many times the report loop visits the entry `n`. */
  function Occurs(cs: seq<CenterRec>, n: string): nat
    decreases |cs|
  {
    if |cs| == 0 then 0 else Occurs(cs[..|cs| - 1], n) + Bit(cs[|cs| - 1].name == n)
  }

  /** `k` copies of `v`, summed: an entry updated once per center of its name. */
  function Times(k: nat, v: int): int {
    if k == 0 then 0 else Times(k - 1, v) + v
  }

  lemma {:induction false} TimesPlus(k: nat, v: int, w: int)
    ensures Times(k, v + w) == Times(k, v) + Times(k, w)
  {
    if k > 0 {
      TimesPlus(k - 1, v, w);
    }
  }

  lemma TimesStep(k: nat, b: bool, v: int)
    ensures Times(k + Bit(b), v) == Times(k, v) + (if b then v else 0)
  {
  }

  lemma OccursStep(cs: seq<CenterRec>, j: nat, n: string)
    requires j < |cs|
    ensures Occurs(cs[..j + 1], n) == Occurs(cs[..j], n) + Bit(cs[j].name == n)
  {
    assert cs[..j + 1][..j] == cs[..j];
  }

  /** `Times` is multiplication. */
  lemma {:induction false} TimesMul(k: nat, v: int)
    ensures Times(k, v) == k * v
  {
    if k > 0 {
      TimesMul(k - 1, v);
    }
  }

  lemma {:induction false} OccursMeaning(cs: seq<CenterRec>, n: string)
    ensures Occurs(cs, n) > 0 <==> n in CenterNames(cs)
    decreases |cs|
  {
    if |cs| > 0 {
      var k := |cs| - 1;
      OccursMeaning(cs[..k], n);
      assert CenterNames(cs) == CenterNames(cs[..k]) + [cs[k].name];
    }
  }

  // ================================================================ friend scores

  /** 1 where `y` is at center `n`. */
  function Presence(a: Assignment): Grid {
    (y: Youth, n: string) => Bit(AtCenter(a, y.name, n))
  }

  /** The number of youth at center `n`. */
  function PeopleAt(ps: seq<Youth>, n: string, a: Assignment): int {
    ColSum(ps, n, Presence(a))
  }

  /** The weights of the dictionary entries that name a listed youth at center `n`. */
  function WeightSum(ws: seq<Weighted>, names: seq<string>, n: string, a: Assignment): int
    decreases |ws|
  {
    if |ws| == 0 then 0
    else
      var e := ws[|ws| - 1];
      WeightSum(ws[..|ws| - 1], names, n, a) +
      (if Truthy(e.friend) && e.friend.value in names && AtCenter(a, e.friend.value, n) then e.weight else 0)
  }

  /** What `y` adds to center `n`'s score when `y` is there. */
  function ScoreOf(y: Youth, names: seq<string>, n: string, a: Assignment): int {
    WeightSum(FriendWeights(y), names, n, a)
  }

  function Gain(a: Assignment, names: seq<string>): Grid {
    (y: Youth, n: string) => if AtCenter(a, y.name, n) then ScoreOf(y, names, n, a) else 0
  }

  /** The friend score of center `n`: over the youth there, the weights of their friends there. */
  function ScoreAt(ps: seq<Youth>, n: string, a: Assignment): int {
    ColSum(ps, n, Gain(a, Names(ps)))
  }

  /** The weight of a whole friend dictionary. */
  function WeightTotal(ws: seq<Weighted>): int
    decreases |ws|
  {
    if |ws| == 0 then 0 else WeightTotal(ws[..|ws| - 1]) + ws[|ws| - 1].weight
  }

  lemma {:induction false} WeightSumBounds(ws: seq<Weighted>, names: seq<string>, n: string, a: Assignment)
    requires NonNegative(ws)
    ensures 0 <= WeightSum(ws, names, n, a) <= WeightTotal(ws)
    decreases |ws|
  {
    if |ws| > 0 {
      WeightSumBounds(ws[..|ws| - 1], names, n, a);
    }
  }

  predicate NonNegative(ws: seq<Weighted>) {
    forall i :: 0 <= i < |ws| ==> ws[i].weight >= 0
  }

  lemma WeightTotalAppend(ws: seq<Weighted>, e: Weighted)
    ensures WeightTotal(ws + [e]) == WeightTotal(ws) + e.weight
  {
    assert (ws + [e])[..|ws|] == ws;
  }

  lemma {:induction false} WeightTotalUpdate(ws: seq<Weighted>, i: nat, e: Weighted)
    requires i < |ws|
    ensures WeightTotal(ws[i := e]) == WeightTotal(ws) - ws[i].weight + e.weight
    decreases |ws|
  {
    var k := |ws| - 1;
    if i < k {
      WeightTotalUpdate(ws[..k], i, e);
      assert ws[i := e][..k] == ws[..k][i := e];
    } else {
      assert ws[i := e][..k] == ws[..k];
    }
  }

  /** `d[k] = w` adds at most `w` to the weight of a dictionary of non-negative weights. */
  lemma InsertTotal(ws: seq<Weighted>, k: Option<string>, w: int)
    requires NonNegative(ws) && w >= 0
    ensures NonNegative(Insert(ws, k, w))
    ensures WeightTotal(Insert(ws, k, w)) <= WeightTotal(ws) + w
  {
    if k in Keys(ws) {
      WeightTotalUpdate(ws, IndexOf(Keys(ws), k), Weighted(k, w));
    } else {
      WeightTotalAppend(ws, Weighted(k, w));
    }
  }

  /**
   * A youth adds between 0 and 6 to a center's score: the repeated-name dictionary never
   * weighs more than 3 + 2 + 1.
   */
  lemma ScoreOfBounds(y: Youth, names: seq<string>, n: string, a: Assignment)
    ensures 0 <= ScoreOf(y, names, n, a) <= 6
  {
    FriendWeightsSteps(y);
    var w1 := Insert([], y.firstChoice, 3);
    var w2 := Insert(w1, y.secondChoice, 2);
    InsertTotal([], y.firstChoice, 3);
    InsertTotal(w1, y.secondChoice, 2);
    InsertTotal(w2, y.thirdChoice, 1);
    WeightSumBounds(FriendWeights(y), names, n, a);
  }

  /** `calculate_friend_scores` before the float division: numerators, denominators and the total. */
  datatype FriendScores = FriendScores(scores: map<string, int>, people: map<string, int>, total: int, youth: nat)

  const DivisionMessage := "division by zero"

  /** Python's message for a float divided by zero. */
  const FloatDivisionMessage := "float division by zero"

  /**
   * The message of `sum(center_scores.values()) / 0`: the scores start at `0.0`, so the sum is a
   * float once any center exists, and the integer 0 when there are none.
   */
  function ScoreDivisionMessage(centers: seq<CenterRec>): string {
    if |centers| > 0 then FloatDivisionMessage else DivisionMessage
  }

  /** Walks the dictionary `{first: 3, second: 2, third: 1}` for a youth at center `n`. */
  method FriendScoreAt(y: Youth, names: seq<string>, n: string, a: Assignment) returns (s: int)
    ensures s == ScoreOf(y, names, n, a)
  {
    var friendWeights := FriendWeights(y);
    s := 0;
    for k := 0 to |friendWeights|
      invariant s == WeightSum(friendWeights[..k], names, n, a)
    {
      var e := friendWeights[k];
      assert friendWeights[..k + 1][..k] == friendWeights[..k];
      if e.friend.Some? && e.friend.value != "" && e.friend.value in names {
        if a(PersonCenter(e.friend.value, n)) == 1 {
          s := s + e.weight;
        }
      }
    }
    assert friendWeights[..|friendWeights|] == friendWeights;
  }

  /** `m` is `base` with `g(y, n)` added to entry `n` once per center of `cs` named `n`. */
  ghost predicate Counted(m: map<string, int>, base: map<string, int>, cs: seq<CenterRec>, y: Youth, g: Grid) {
    m.Keys == base.Keys &&
    forall n :: n in m ==> m[n] == base[n] + Times(Occurs(cs, n), g(y, n))
  }

  /** Adding `g(y, c)` to the entry of the `j`-th center `c` extends the count to `j + 1` centers. */
  lemma EntryStep(base: map<string, int>, before: map<string, int>, cs: seq<CenterRec>, j: nat, y: Youth, g: Grid)
    requires j < |cs| && cs[j].name in before
    requires Counted(before, base, cs[..j], y, g)
    ensures Counted(before[cs[j].name := before[cs[j].name] + g(y, cs[j].name)], base, cs[..j + 1], y, g)
  {
    var after := before[cs[j].name := before[cs[j].name] + g(y, cs[j].name)];
    forall n | n in after
      ensures after[n] == base[n] + Times(Occurs(cs[..j + 1], n), g(y, n))
    {
      OccursStep(cs, j, n);
      TimesStep(Occurs(cs[..j], n), cs[j].name == n, g(y, n));
    }
  }

  /** Every entry `n` of `m` holds `g` summed over the youth `ps`, once per center of `cs` named `n`. */
  ghost predicate Tallied(m: map<string, int>, cs: seq<CenterRec>, ps: seq<Youth>, g: Grid) {
    forall n :: n in m ==> m[n] == Times(Occurs(cs, n), ColSum(ps, n, g))
  }

  /** Adding one youth's row to every entry extends the column sums to `i + 1` youth. */
  lemma ColStep(before: map<string, int>, after: map<string, int>, ps: seq<Youth>, i: nat,
                cs: seq<CenterRec>, g: Grid)
    requires i < |ps|
    requires Tallied(before, cs, ps[..i], g)
    requires Counted(after, before, cs, ps[i], g)
    ensures Tallied(after, cs, ps[..i + 1], g)
  {
    assert ps[..i + 1][..i] == ps[..i];
    forall n | n in after
      ensures after[n] == Times(Occurs(cs, n), ColSum(ps[..i + 1], n, g))
    {
      TimesPlus(Occurs(cs, n), ColSum(ps[..i], n, g), g(ps[i], n));
    }
  }

  lemma YouthSumPrefix(ps: seq<Youth>, i: nat, cs: seq<CenterRec>, g: Grid)
    requires i < |ps|
    ensures YouthSum(ps[..i + 1], cs, g) == YouthSum(ps[..i], cs, g) + RowSum(ps[i], cs, g)
  {
    assert ps[..i + 1][..i] == ps[..i];
  }

  /** The body of the center loop: a youth at center `c` is counted and adds its friend score. */
  method VisitCenter(y: Youth, names: seq<string>, c: CenterRec, a: Assignment,
                     people: map<string, int>, scores: map<string, int>, total: int)
    returns (people': map<string, int>, scores': map<string, int>, total': int)
    requires c.name in people && c.name in scores
    ensures people' == people[c.name := people[c.name] + Presence(a)(y, c.name)]
    ensures scores' == scores[c.name := scores[c.name] + Gain(a, names)(y, c.name)]
    ensures total' == total + Gain(a, names)(y, c.name)
  {
    people', scores', total' := people, scores, total;
    if a(PersonCenter(y.name, c.name)) == 1 {
      people' := people'[c.name := people'[c.name] + 1];
      var s := FriendScoreAt(y, names, c.name, a);
      scores' := scores'[c.name := scores'[c.name] + s];
      total' := total' + s;
    } else {
      assert people' == people[c.name := people[c.name] + 0];
      assert scores' == scores[c.name := scores[c.name] + 0];
    }
  }

  /** One youth's pass over the centers: count it and add its friend score where it is. */
  method AddAtCenters(y: Youth, names: seq<string>, centers: seq<CenterRec>, a: Assignment,
                      people: map<string, int>, scores: map<string, int>, total: int)
    returns (people': map<string, int>, scores': map<string, int>, total': int)
    requires forall j :: 0 <= j < |centers| ==> centers[j].name in people && centers[j].name in scores
    ensures Counted(people', people, centers, y, Presence(a))
    ensures Counted(scores', scores, centers, y, Gain(a, names))
    ensures total' == total + RowSum(y, centers, Gain(a, names))
  {
    people', scores', total' := people, scores, total;
    for j := 0 to |centers|
      invariant Counted(people', people, centers[..j], y, Presence(a))
      invariant Counted(scores', scores, centers[..j], y, Gain(a, names))
      invariant total' == total + RowSum(y, centers[..j], Gain(a, names))
    {
      people', scores', total' := VisitNext(y, names, centers, j, a, people, scores, total, people', scores', total');
    }
    assert centers[..|centers|] == centers;
  }

  /** One turn of the center loop: visiting the `j`-th center extends the counts to `j + 1` centers. */
  method VisitNext(y: Youth, names: seq<string>, centers: seq<CenterRec>, j: nat, a: Assignment,
                   people: map<string, int>, scores: map<string, int>, total: int,
                   people0: map<string, int>, scores0: map<string, int>, total0: int)
    returns (people1: map<string, int>, scores1: map<string, int>, total1: int)
    requires j < |centers| && centers[j].name in people && centers[j].name in scores
    requires Counted(people0, people, centers[..j], y, Presence(a))
    requires Counted(scores0, scores, centers[..j], y, Gain(a, names))
    requires total0 == total + RowSum(y, centers[..j], Gain(a, names))
    ensures Counted(people1, people, centers[..j + 1], y, Presence(a))
    ensures Counted(scores1, scores, centers[..j + 1], y, Gain(a, names))
    ensures total1 == total + RowSum(y, centers[..j + 1], Gain(a, names))
  {
    EntryStep(people, people0, centers, j, y, Presence(a));
    EntryStep(scores, scores0, centers, j, y, Gain(a, names));
    RowSumStep(y, centers, j, Gain(a, names));
    people1, scores1, total1 := VisitCenter(y, names, centers[j], a, people0, scores0, total0);
  }

  /**
   * `calculate_friend_scores`: per center, the youth there and their friend score, each entry
   * counted once per center of that name; fails like the division by `len(youth_list)` when the
   * list is empty.
   */
  method CalculateFriendScores(ps: seq<Youth>, centers: seq<CenterRec>, a: Assignment) returns (r: Result<FriendScores>)
    ensures r.Err? <==> |ps| == 0
    ensures r.Err? ==> r.error == ScoreDivisionMessage(centers)
    ensures r.Ok? ==> forall n :: n in r.value.people <==> n in CenterNames(centers)
    ensures r.Ok? ==> forall n :: n in r.value.scores <==> n in CenterNames(centers)
    ensures r.Ok? ==> forall n :: n in r.value.people ==> r.value.people[n] == Occurs(centers, n) * PeopleAt(ps, n, a)
    ensures r.Ok? ==> forall n :: n in r.value.scores ==> r.value.scores[n] == Occurs(centers, n) * ScoreAt(ps, n, a)
    ensures r.Ok? ==> r.value.total == CenterSum(ps, centers, Gain(a, Names(ps))) && r.value.youth == |ps|
  {
    var scores := map n | n in CenterNames(centers) :: 0;
    var people := map n | n in CenterNames(centers) :: 0;
    var total := 0;
    var names := Names(ps);
    ghost var keys := people.Keys;
    forall j | 0 <= j < |centers|
      ensures centers[j].name in keys
    {
      assert CenterNames(centers)[j] == centers[j].name;
    }
    forall n | n in keys
      ensures Times(Occurs(centers, n), 0) == 0
    {
      TimesMul(Occurs(centers, n), 0);
    }
    for i := 0 to |ps|
      invariant people.Keys == keys && scores.Keys == keys
      invariant Tallied(people, centers, ps[..i], Presence(a))
      invariant Tallied(scores, centers, ps[..i], Gain(a, names))
      invariant total == YouthSum(ps[..i], centers, Gain(a, names))
    {
      ghost var people0, scores0 := people, scores;
      YouthSumPrefix(ps, i, centers, Gain(a, names));
      people, scores, total := AddAtCenters(ps[i], names, centers, a, people, scores, total);
      ColStep(people0, people, ps, i, centers, Presence(a));
      ColStep(scores0, scores, ps, i, centers, Gain(a, names));
    }
    assert ps[..|ps|] == ps;
    SumSwap(ps, centers, Gain(a, names));
    forall n | n in keys
      ensures people[n] == Occurs(centers, n) * PeopleAt(ps, n, a)
      ensures scores[n] == Occurs(centers, n) * ScoreAt(ps, n, a)
    {
      TimesMul(Occurs(centers, n), PeopleAt(ps, n, a));
      TimesMul(Occurs(centers, n), ScoreAt(ps, n, a));
    }
    if |ps| == 0 {
      return Err(ScoreDivisionMessage(centers));
    }
    r := Ok(FriendScores(scores, people, total, |ps|));
  }

  /** The number of centers `y` is at. */
  lemma {:induction false} PresenceCount(y: Youth, cs: seq<CenterRec>, a: Assignment)
    requires Boolean(a)
    ensures RowSum(y, cs, Presence(a)) == Count(CenterVars(y.name, cs), a)
    decreases |cs|
  {
    if |cs| > 0 {
      var k := |cs| - 1;
      PresenceCount(y, cs[..k], a);
      assert CenterVars(y.name, cs)[..k] == CenterVars(y.name, cs[..k]);
    }
  }

  /**
   * When every youth is at most at one center, the per-center head counts add up to at most
   * the number of youth.
   */
  lemma {:induction false} PeopleBound(ps: seq<Youth>, centers: seq<CenterRec>, a: Assignment)
    requires Boolean(a)
    requires forall i :: 0 <= i < |ps| ==> Count(CenterVars(ps[i].name, centers), a) <= 1
    ensures CenterSum(ps, centers, Presence(a)) <= |ps|
    decreases |ps|
  {
    SumSwap(ps, centers, Presence(a));
    if |ps| > 0 {
      var k := |ps| - 1;
      PeopleBound(ps[..k], centers, a);
      SumSwap(ps[..k], centers, Presence(a));
      PresenceCount(ps[k], centers, a);
    }
  }

  /**
   * Over an assignment satisfying the hard constraints of a roster of role-'Youth' persons, the
   * per-center head counts add up to exactly the number of youth.
   */
  lemma {:induction false} EveryYouthCounted(cfg: Config.Config, ps: seq<Youth>, centers: seq<CenterRec>, a: Assignment)
    requires Boolean(a) && HoldsAll(HardPart(cfg, ps, centers).cons, a)
    requires forall i :: 0 <= i < |ps| ==> ps[i].role == "Youth"
    ensures CenterSum(ps, centers, Presence(a)) == |ps|
  {
    forall i | 0 <= i < |ps|
      ensures RowSum(ps[i], centers, Presence(a)) == 1
    {
      YouthPlaced(cfg, ps, centers, a, i);
      PresenceCount(ps[i], centers, a);
      BooleanBits(CenterVars(ps[i].name, centers), a);
      CountOne(CenterVars(ps[i].name, centers), a);
    }
    OnePerYouth(ps, centers, a);
    SumSwap(ps, centers, Presence(a));
  }

  lemma {:induction false} OnePerYouth(ps: seq<Youth>, centers: seq<CenterRec>, a: Assignment)
    requires forall i :: 0 <= i < |ps| ==> RowSum(ps[i], centers, Presence(a)) == 1
    ensures YouthSum(ps, centers, Presence(a)) == |ps|
    decreases |ps|
  {
    if |ps| > 0 {
      var k := |ps| - 1;
      assert forall i :: 0 <= i < k ==> ps[..k][i] == ps[i];
      OnePerYouth(ps[..k], centers, a);
    }
  }

  // ================================================================ friend choice statistics

  /** Some center holds both `p` and `f`. */
  predicate Shares(p: string, f: string, centers: seq<CenterRec>, a: Assignment) {
    exists j :: 0 <= j < |centers| && AtCenter(a, p, centers[j].name) && AtCenter(a, f, centers[j].name)
  }

  /** A choice is met: it is truthy, names a listed youth, and that youth shares a center. */
  predicate Hit(y: Youth, x: Option<string>, names: seq<string>, centers: seq<CenterRec>, a: Assignment) {
    Truthy(x) && x.value in names && Shares(y.name, x.value, centers, a)
  }

  /** How many of `y`'s three choices are met, repeated names counted each time. */
  function HitCount(y: Youth, names: seq<string>, centers: seq<CenterRec>, a: Assignment): nat {
    Bit(Hit(y, y.firstChoice, names, centers, a)) + Bit(Hit(y, y.secondChoice, names, centers, a)) +
    Bit(Hit(y, y.thirdChoice, names, centers, a))
  }

  /** The number of youth whose choice of rank `k` (0, 1 or 2) is met. */
  function RankHits(ps: seq<Youth>, k: nat, names: seq<string>, centers: seq<CenterRec>, a: Assignment): nat
    requires k < 3
    decreases |ps|
  {
    if |ps| == 0 then 0
    else
      var y := ps[|ps| - 1];
      RankHits(ps[..|ps| - 1], k, names, centers, a) + Bit(Hit(y, Choices(y)[k], names, centers, a))
  }

  /** The number of youth with at least two choices met. */
  function MultipleHits(ps: seq<Youth>, names: seq<string>, centers: seq<CenterRec>, a: Assignment): nat
    decreases |ps|
  {
    if |ps| == 0 then 0
    else MultipleHits(ps[..|ps| - 1], names, centers, a) + Bit(HitCount(ps[|ps| - 1], names, centers, a) > 1)
  }

  /** `calculate_friend_choice_stats` before the percentages. */
  datatype ChoiceStats = ChoiceStats(first: nat, second: nat, third: nat, multiple: nat, total: nat)

  /** The center loop with its `break`: stops at the first center holding both. */
  method SameCenter(p: string, f: string, centers: seq<CenterRec>, a: Assignment) returns (found: bool)
    ensures found <==> Shares(p, f, centers, a)
  {
    found := false;
    var j := 0;
    while j < |centers|
      invariant 0 <= j <= |centers|
      invariant !found
      invariant forall j' :: 0 <= j' < j ==> !(AtCenter(a, p, centers[j'].name) && AtCenter(a, f, centers[j'].name))
    {
      var c := centers[j];
      if a(PersonCenter(p, c.name)) == 1 && a(PersonCenter(f, c.name)) == 1 {
        found := true;
        break;
      }
      j := j + 1;
    }
  }

  /**
   * `calculate_friend_choice_stats`: per rank, the youth whose choice of that rank is met, and
   * the youth with two or more met; fails like the division by the youth count when the list is
   * empty.
   */
  method CalculateFriendChoiceStats(ps: seq<Youth>, centers: seq<CenterRec>, a: Assignment)
    returns (r: Result<ChoiceStats>)
    ensures r.Err? <==> |ps| == 0
    ensures r.Err? ==> r.error == DivisionMessage
    ensures r.Ok? ==> r.value == ChoiceStats(
              RankHits(ps, 0, Names(ps), centers, a), RankHits(ps, 1, Names(ps), centers, a),
              RankHits(ps, 2, Names(ps), centers, a), MultipleHits(ps, Names(ps), centers, a), |ps|)
  {
    var names := Names(ps);
    var counts: seq<nat> := [0, 0, 0];
    var multiple: nat := 0;
    for i := 0 to |ps|
      invariant |counts| == 3
      invariant forall k :: 0 <= k < 3 ==> counts[k] == RankHits(ps[..i], k, names, centers, a)
      invariant multiple == MultipleHits(ps[..i], names, centers, a)
    {
      var y := ps[i];
      assert ps[..i + 1][..i] == ps[..i];
      var friendsWith := 0;
      var choices := [y.firstChoice, y.secondChoice, y.thirdChoice];
      for k := 0 to 3
        invariant |counts| == 3
        invariant forall k' :: 0 <= k' < k ==>
                    counts[k'] == RankHits(ps[..i], k', names, centers, a) + Bit(Hit(y, choices[k'], names, centers, a))
        invariant forall k' :: k <= k' < 3 ==> counts[k'] == RankHits(ps[..i], k', names, centers, a)
        invariant friendsWith == (if k > 0 then Bit(Hit(y, choices[0], names, centers, a)) else 0) +
                                 (if k > 1 then Bit(Hit(y, choices[1], names, centers, a)) else 0) +
                                 (if k > 2 then Bit(Hit(y, choices[2], names, centers, a)) else 0)
      {
        var friendName := choices[k];
        if friendName.Some? && friendName.value != "" && friendName.value in names {
          var found := SameCenter(y.name, friendName.value, centers, a);
          if found {
            counts := counts[k := counts[k] + 1];
            friendsWith := friendsWith + 1;
          }
        }
      }
      assert choices == Choices(y);
      if friendsWith > 1 {
        multiple := multiple + 1;
      }
    }
    assert ps[..|ps|] == ps;
    if |ps| == 0 {
      return Err(DivisionMessage);
    }
    r := Ok(ChoiceStats(counts[0], counts[1], counts[2], multiple, |ps|));
  }

  /**
   * Every counter is at most the number of youth, and a youth counted under "multiple" has two
   * met choices, so twice that counter is at most the sum of the three rank counters.
   */
  lemma {:induction false} ChoiceStatsBounds(ps: seq<Youth>, names: seq<string>, centers: seq<CenterRec>, a: Assignment)
    ensures forall k :: 0 <= k < 3 ==> RankHits(ps, k, names, centers, a) <= |ps|
    ensures MultipleHits(ps, names, centers, a) <= |ps|
    ensures 2 * MultipleHits(ps, names, centers, a) <=
              RankHits(ps, 0, names, centers, a) + RankHits(ps, 1, names, centers, a) + RankHits(ps, 2, names, centers, a)
    decreases |ps|
  {
    if |ps| > 0 {
      ChoiceStatsBounds(ps[..|ps| - 1], names, centers, a);
    }
  }
}
