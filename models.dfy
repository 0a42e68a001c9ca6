/**
 * The entity records: crews with their fixed adult rosters, centers owning crews, and the
 * participants (youth and young adults) with their family, friend and history data.
 */
module Models {
  import opened Wrappers

  /** The read-only view of a crew that the model builders consult: its name and adult roster. */
  datatype CrewRec = CrewRec(name: string, adults: seq<string>)

  /** The read-only view of a center: its name and its crews, in order. */
  datatype CenterRec = CenterRec(name: string, crews: seq<CrewRec>)

  /** A crew. `members` starts as the adult roster and grows; `size` tracks its length. */
  class Crew {
    var name: string
    var size: int
    var members: seq<string>
    var adults: seq<string>

    ghost predicate Valid()
      reads this
    {
      size == |members|
    }

    constructor (name: string, adults: seq<string>)
      ensures this.name == name && this.adults == adults
      ensures members == adults && size == |adults|
      ensures Valid()
    {
      this.name := name;
      this.adults := adults;
      members := adults;
      size := 0;
      new;
      RecomputeSize();
    }

    method AddMember(member: string)
      modifies this
      ensures members == old(members) + [member]
      ensures adults == old(adults) && name == old(name)
      ensures Valid() && size == |old(members)| + 1
    {
      members := members + [member];
      RecomputeSize();
    }

    method RecomputeSize()
      modifies this`size
      ensures Valid()
    {
      size := |members|;
    }

    function Rec(): CrewRec
      reads this
    {
      CrewRec(name, adults)
    }
  }

  /** Field-by-field equality of two crews, which is what list removal compares. */
  predicate SameCrew(x: Crew, y: Crew)
    reads x, y
  {
    x.name == y.name && x.size == y.size && x.members == y.members && x.adults == y.adults
  }

  /** The position of the first crew in `ks` equal to `x`, if any. */
  function FirstEqual(ks: seq<Crew>, x: Crew): (r: Option<nat>)
    reads ks, x
    ensures r.Some? ==> r.value < |ks| && SameCrew(ks[r.value], x)
    ensures r.Some? ==> forall j :: 0 <= j < r.value ==> !SameCrew(ks[j], x)
    ensures r.None? ==> forall j :: 0 <= j < |ks| ==> !SameCrew(ks[j], x)
    decreases |ks|
  {
    if |ks| == 0 then None
    else if SameCrew(ks[0], x) then Some(0)
    else match FirstEqual(ks[1..], x)
      case None => None
      case Some(i) => Some(i + 1)
  }

  function Recs(ks: seq<Crew>): (rs: seq<CrewRec>)
    reads ks
    ensures |rs| == |ks|
    ensures forall i :: 0 <= i < |ks| ==> rs[i] == ks[i].Rec()
  {
    seq(|ks|, i reads ks requires 0 <= i < |ks| => ks[i].Rec())
  }

  /** What `list.remove` raises when no element equals its argument. */
  const RemoveMessage := "list.remove(x): x not in list"

  /** A center. `crewCount` tracks the number of crews. */
  class Center {
    var name: string
    var crews: seq<Crew>
    var crewCount: int

    ghost predicate Valid()
      reads this
    {
      crewCount == |crews|
    }

    constructor (name: string, crews: seq<Crew>)
      ensures this.name == name && this.crews == crews
      ensures Valid()
    {
      this.name := name;
      this.crews := crews;
      crewCount := |crews|;
    }

    method AddCrew(crew: Crew)
      modifies this
      ensures crews == old(crews) + [crew] && name == old(name)
      ensures crewCount == old(crewCount) + 1
      ensures old(Valid()) ==> Valid()
    {
      crews := crews + [crew];
      crewCount := crewCount + 1;
    }

    /**
     * Removes the first crew equal to `crew`. When there is none, removal fails before the
     * count is touched, and nothing changes.
     */
    method RemoveCrew(crew: Crew) returns (r: Outcome)
      modifies this
      ensures name == old(name)
      ensures match old(FirstEqual(crews, crew))
        case None => r == Fail(RemoveMessage) && crews == old(crews) && crewCount == old(crewCount)
        case Some(i) =>
          && r == Pass
          && crews == old(crews[..i] + crews[i + 1..])
          && crewCount == old(crewCount) - 1
      ensures old(Valid()) ==> Valid()
    {
      match FirstEqual(crews, crew)
      case None =>
        r := Fail(RemoveMessage);
      case Some(i) =>
        crews := crews[..i] + crews[i + 1..];
        crewCount := crewCount - 1;
        r := Pass;
    }

    function Rec(): CenterRec
      reads this, crews
    {
      CenterRec(name, Recs(crews))
    }
  }

  /** A participant: a youth, or a young adult already bound to a crew roster. */
  datatype Youth = Youth(
    name: string,
    year: string,
    gender: string,
    history: string,
    role: string,
    siblings: seq<string>,
    parentName: Option<string>,
    firstChoice: Option<string>,
    secondChoice: Option<string>,
    thirdChoice: Option<string>,
    pastLeaders: seq<string>)

  /** The names in a roster, in order and with repeats; `n in Names(ps)` is `n in youth_dict`. */
  function Names(ps: seq<Youth>): (ns: seq<string>)
    ensures |ns| == |ps|
    ensures forall i :: 0 <= i < |ps| ==> ns[i] == ps[i].name
  {
    seq(|ps|, i requires 0 <= i < |ps| => ps[i].name)
  }

  /** First, second and third friend choice, in rank order. */
  function Choices(y: Youth): seq<Option<string>> {
    [y.firstChoice, y.secondChoice, y.thirdChoice]
  }

  /** Builds a participant; the sibling field arrives as one `|`-separated string, or not at all. */
  function NewYouth(
    name: string, year: string, gender: string, history: string,
    role: string := "Youth",
    siblings: Option<string> := None,
    parentName: Option<string> := None,
    firstChoice: Option<string> := None,
    secondChoice: Option<string> := None,
    thirdChoice: Option<string> := None,
    pastLeaders: seq<string> := []): (y: Youth)
    ensures siblings.None? ==> y.siblings == []
    ensures siblings.Some? ==> JoinWith(y.siblings, '|') == siblings.value
    ensures forall i :: 0 <= i < |y.siblings| ==> '|' !in y.siblings[i]
    ensures siblings.Some? ==> |y.siblings| >= 1
    ensures y.name == name && y.role == role && y.parentName == parentName
    ensures y.year == year && y.gender == gender && y.history == history
    ensures y.firstChoice == firstChoice && y.secondChoice == secondChoice && y.thirdChoice == thirdChoice
    ensures y.pastLeaders == pastLeaders
  {
    var siblingsList := if siblings.None? then [] else Split(siblings.value, '|');
    JoinSplit(if siblings.None? then "" else siblings.value, '|');
    Youth(name, year, gender, history, role, siblingsList, parentName,
          firstChoice, secondChoice, thirdChoice, pastLeaders)
  }

  // ---------------------------------------------------------------- str.split / str.join

  /** Python's `s.split(sep)` for a one-character separator: never empty, keeps empty parts. */
  function Split(s: string, sep: char): (parts: seq<string>)
    ensures |parts| >= 1
    ensures forall i :: 0 <= i < |parts| ==> sep !in parts[i]
    decreases |s|
  {
    if |s| == 0 then [""]
    else
      var rest := Split(s[1..], sep);
      if s[0] == sep then [""] + rest else [[s[0]] + rest[0]] + rest[1..]
  }

  /** Python's `sep.join(parts)`. */
  function JoinWith(parts: seq<string>, sep: char): string
    decreases |parts|
  {
    if |parts| == 0 then ""
    else if |parts| == 1 then parts[0]
    else parts[0] + [sep] + JoinWith(parts[1..], sep)
  }

  /** Joining the parts of a split gives back the original string. */
  lemma {:induction false} JoinSplit(s: string, sep: char)
    ensures JoinWith(Split(s, sep), sep) == s
    decreases |s|
  {
    if |s| > 0 {
      var rest := Split(s[1..], sep);
      JoinSplit(s[1..], sep);
      if s[0] == sep {
        assert ([""] + rest)[1..] == rest;
      } else {
        var parts := [[s[0]] + rest[0]] + rest[1..];
        if |rest| > 1 {
          assert parts[1..] == rest[1..];
          assert JoinWith(rest, sep) == rest[0] + [sep] + JoinWith(rest[1..], sep);
        }
      }
    }
  }

  /** Splitting a join of separator-free parts gives back the parts. */
  lemma {:induction false} SplitJoin(parts: seq<string>, sep: char)
    requires |parts| >= 1
    requires forall i :: 0 <= i < |parts| ==> sep !in parts[i]
    ensures Split(JoinWith(parts, sep), sep) == parts
    decreases |parts|, |parts[0]|
  {
    var p := parts[0];
    if |p| == 0 {
      if |parts| > 1 {
        SplitJoin(parts[1..], sep);
        var s := JoinWith(parts, sep);
        assert s == [sep] + JoinWith(parts[1..], sep);
        assert s[1..] == JoinWith(parts[1..], sep);
        assert [""] + parts[1..] == parts;
      }
    } else {
      var shorter := [p[1..]] + parts[1..];
      assert forall i :: 1 <= i < |shorter| ==> shorter[i] == parts[i];
      assert sep !in p[1..] by { assert forall c :: c in p[1..] ==> c in p; }
      SplitJoin(shorter, sep);
      var s := JoinWith(parts, sep);
      var t := JoinWith(shorter, sep);
      assert shorter[1..] == parts[1..];
      assert s == [p[0]] + t;
      assert s[1..] == t;
      assert p[0] != sep by { assert p[0] in p; }
      var rest := Split(t, sep);
      assert rest == shorter;
      assert [[p[0]] + rest[0]] + rest[1..] == parts by {
        assert [p[0]] + p[1..] == p;
      }
    }
  }
}
