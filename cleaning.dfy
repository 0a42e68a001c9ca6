/**
 * Roster checks run before a model is built: the last-name lookup used to resolve friend
 * choices, and the two validators that reject unknown friends and unknown parents. Dataframe
 * rows are sequences of records.
 */
module Cleaning {
  import opened Wrappers
  import opened Models
  import opened FamilyConstraints

  // ================================================================ whitespace

  /**
   * The ASCII characters `str.split()` and `str.strip()` treat as whitespace: space, tab, LF, VT,
   * FF, CR, and the separators U+001C to U+001F.
   */
  predicate IsSpace(c: char) {
    c == ' ' || ('\t' <= c <= '\r') || ('\U{1C}' <= c <= '\U{1F}')
  }

  /** `s` without its leading whitespace. */
  function TrimLeft(s: string): string
    decreases |s|
  {
    if |s| > 0 && IsSpace(s[0]) then TrimLeft(s[1..]) else s
  }

  /** Only whitespace is dropped, all of it, and from the front only. */
  lemma {:induction false} TrimLeftMeaning(s: string)
    ensures |TrimLeft(s)| <= |s| && TrimLeft(s) == s[|s| - |TrimLeft(s)|..]
    ensures forall k :: 0 <= k < |s| - |TrimLeft(s)| ==> IsSpace(s[k])
    ensures TrimLeft(s) == [] || !IsSpace(TrimLeft(s)[0])
    decreases |s|
  {
    if |s| > 0 && IsSpace(s[0]) {
      TrimLeftMeaning(s[1..]);
    }
  }

  /** `s` without its trailing whitespace. */
  function TrimRight(s: string): string
    decreases |s|
  {
    if |s| > 0 && IsSpace(s[|s| - 1]) then TrimRight(s[..|s| - 1]) else s
  }

  /** Only whitespace is dropped, all of it, and from the back only. */
  lemma {:induction false} TrimRightMeaning(s: string)
    ensures |TrimRight(s)| <= |s| && TrimRight(s) == s[..|TrimRight(s)|]
    ensures forall k :: |TrimRight(s)| <= k < |s| ==> IsSpace(s[k])
    ensures TrimRight(s) == [] || !IsSpace(TrimRight(s)[|TrimRight(s)| - 1])
    decreases |s|
  {
    if |s| > 0 && IsSpace(s[|s| - 1]) {
      TrimRightMeaning(s[..|s| - 1]);
    }
  }

  /** The number of leading whitespace characters of `s`. */
  function Lead(s: string): nat {
    TrimLeftMeaning(s);
    |s| - |TrimLeft(s)|
  }

  /** `s.strip()`: the slice of `s` between its leading and its trailing whitespace. */
  function Strip(s: string): string {
    TrimRight(TrimLeft(s))
  }

  lemma StripMeaning(s: string)
    ensures Lead(s) + |Strip(s)| <= |s| && Strip(s) == s[Lead(s)..Lead(s) + |Strip(s)|]
    ensures forall k :: 0 <= k < Lead(s) ==> IsSpace(s[k])
    ensures forall k :: Lead(s) + |Strip(s)| <= k < |s| ==> IsSpace(s[k])
    ensures Strip(s) == [] || (!IsSpace(Strip(s)[0]) && !IsSpace(Strip(s)[|Strip(s)| - 1]))
  {
    var t := TrimLeft(s);
    TrimLeftMeaning(s);
    TrimRightMeaning(t);
    assert forall k :: Lead(s) <= k < |s| ==> s[k] == t[k - Lead(s)];
  }

  /** The longest prefix of `s` without whitespace. */
  function Word(s: string): string
    decreases |s|
  {
    if |s| == 0 || IsSpace(s[0]) then [] else [s[0]] + Word(s[1..])
  }

  /** The word is a prefix of `s`, holds no whitespace, and stops at whitespace or the end. */
  lemma {:induction false} WordMeaning(s: string)
    ensures |Word(s)| <= |s| && Word(s) == s[..|Word(s)|]
    ensures forall k :: 0 <= k < |Word(s)| ==> !IsSpace(Word(s)[k])
    ensures |Word(s)| == |s| || IsSpace(s[|Word(s)|])
    decreases |s|
  {
    if |s| > 0 && !IsSpace(s[0]) {
      WordMeaning(s[1..]);
    }
  }

  /**
   * `s.split()[0]`: the first whitespace-separated token, or `None` where the source indexes
   * an empty list.
   */
  function FirstToken(s: string): Option<string> {
    var t := TrimLeft(s);
    if t == [] then None else Some(Word(t))
  }

  /** The first token is missing exactly for a blank string; otherwise it starts at the first non-space. */
  lemma FirstTokenMeaning(s: string)
    ensures FirstToken(s).None? <==> forall k :: 0 <= k < |s| ==> IsSpace(s[k])
    ensures FirstToken(s).Some? ==> |FirstToken(s).value| > 0 && Lead(s) < |s| && FirstToken(s).value[0] == s[Lead(s)]
    ensures FirstToken(s).Some? ==> forall k :: 0 <= k < |FirstToken(s).value| ==> !IsSpace(FirstToken(s).value[k])
  {
    var t := TrimLeft(s);
    TrimLeftMeaning(s);
    if t != [] {
      WordMeaning(t);
      assert t[0] == s[Lead(s)];
    }
  }

  // ================================================================ name lookup

  /** A buddy-form row as the lookup reads it. */
  datatype NameRow = NameRow(fullName: string, lastName: string)

  /** What Python reports when `split()[0]` finds no token. */
  const IndexMessage := "list index out of range"

  /**
   * The two keys a row writes: the stripped last name and "Last, F", where F is the first
   * character of the first token of the full name; `None` when the full name is blank.
   */
  function RowKeys(row: NameRow): Option<(string, string)> {
    FirstTokenMeaning(row.fullName);
    match FirstToken(row.fullName)
    case None => None
    case Some(first) =>
      var last := Strip(row.lastName);
      Some((last, last + ", " + [first[0]]))
  }

  /** A row writes no key exactly when its full name is blank; otherwise the keys are as above. */
  lemma RowKeysShape(row: NameRow)
    ensures RowKeys(row).None? <==> forall k :: 0 <= k < |row.fullName| ==> IsSpace(row.fullName[k])
    ensures RowKeys(row).Some? ==> RowKeys(row).value.0 == Strip(row.lastName)
    ensures RowKeys(row).Some? ==> Lead(row.fullName) < |row.fullName|
    ensures RowKeys(row).Some? ==>
              RowKeys(row).value.1 == Strip(row.lastName) + ", " + [row.fullName[Lead(row.fullName)]]
  {
    FirstTokenMeaning(row.fullName);
  }

  predicate KeyOf(row: NameRow, k: string) {
    RowKeys(row).Some? && (k == RowKeys(row).value.0 || k == RowKeys(row).value.1)
  }

  /** The dictionary the rows build, row by row, later writes replacing earlier ones. */
  function Lookup(rows: seq<NameRow>): Result<map<string, string>>
    decreases |rows|
  {
    if |rows| == 0 then Ok(map[])
    else
      var n := |rows| - 1;
      match Lookup(rows[..n])
      case Err(e) => Err(e)
      case Ok(d) =>
        match RowKeys(rows[n])
        case None => Err(IndexMessage)
        case Some(ks) => Ok(d[ks.0 := rows[n].fullName][ks.1 := rows[n].fullName])
  }

  /** The lookup fails exactly when some row's full name is blank, and then with `IndexError`. */
  lemma {:induction false} LookupFails(rows: seq<NameRow>)
    ensures Lookup(rows).Err? <==> exists i :: 0 <= i < |rows| && RowKeys(rows[i]).None?
    ensures Lookup(rows).Err? ==> Lookup(rows).error == IndexMessage
    decreases |rows|
  {
    if |rows| > 0 {
      var n := |rows| - 1;
      LookupFails(rows[..n]);
      assert forall i :: 0 <= i < n ==> rows[..n][i] == rows[i];
    }
  }

  /** Once a prefix of the rows fails, the whole lookup fails the same way. */
  lemma {:induction false} LookupErrStays(rows: seq<NameRow>, i: nat)
    requires i <= |rows| && Lookup(rows[..i]).Err?
    ensures Lookup(rows) == Lookup(rows[..i])
    decreases |rows|
  {
    if i < |rows| {
      var n := |rows| - 1;
      assert rows[..n][..i] == rows[..i];
      LookupErrStays(rows[..n], i);
    } else {
      assert rows[..i] == rows;
    }
  }

  /** Every key comes from some row, and every row's keys are present. */
  lemma {:induction false} LookupKeys(rows: seq<NameRow>)
    requires Lookup(rows).Ok?
    ensures forall k :: k in Lookup(rows).value <==> exists i :: 0 <= i < |rows| && KeyOf(rows[i], k)
    decreases |rows|
  {
    if |rows| > 0 {
      var n := |rows| - 1;
      var front := rows[..n];
      LookupKeys(front);
      var d := Lookup(rows).value;
      forall k
        ensures k in d <==> exists i :: 0 <= i < |rows| && KeyOf(rows[i], k)
      {
        if k in d && !KeyOf(rows[n], k) {
          var i :| 0 <= i < n && KeyOf(front[i], k);
          assert rows[i] == front[i];
        }
        if exists i :: 0 <= i < |rows| && KeyOf(rows[i], k) {
          var i :| 0 <= i < |rows| && KeyOf(rows[i], k);
          if i < n {
            assert front[i] == rows[i];
          }
        }
      }
    }
  }

  /** A key maps to the full name of the last row that writes it. */
  lemma {:induction false} LookupLastWins(rows: seq<NameRow>, i: nat, k: string)
    requires Lookup(rows).Ok?
    requires i < |rows| && KeyOf(rows[i], k)
    requires forall j :: i < j < |rows| ==> !KeyOf(rows[j], k)
    ensures k in Lookup(rows).value && Lookup(rows).value[k] == rows[i].fullName
    decreases |rows|
  {
    var n := |rows| - 1;
    if i < n {
      var front := rows[..n];
      assert front[i] == rows[i];
      assert forall j :: i < j < n ==> front[j] == rows[j];
      LookupLastWins(front, i, k);
    }
  }

  /** `get_full_name_lookup`: fills the dictionary row by row. */
  method GetFullNameLookup(rows: seq<NameRow>) returns (r: Result<map<string, string>>)
    ensures r == Lookup(rows)
  {
    var lookup: map<string, string> := map[];
    for i := 0 to |rows|
      invariant Lookup(rows[..i]) == Ok(lookup)
    {
      var row := rows[i];
      var fullName := row.fullName;
      var lastName := Strip(row.lastName);
      var first := FirstToken(fullName);
      FirstTokenMeaning(fullName);
      assert rows[..i + 1][..i] == rows[..i];
      if first.None? {
        LookupErrStays(rows, i + 1);
        return Err(IndexMessage);
      }
      lookup := lookup[lastName := fullName];
      lookup := lookup[lastName + ", " + [first.value[0]] := fullName];
    }
    assert rows[..|rows|] == rows;
    r := Ok(lookup);
  }

  // ================================================================ validators

  /** Python truthiness of an optional string: present and non-empty. */
  predicate Truthy(x: Option<string>) {
    x.Some? && x.value != ""
  }

  /** `", ".join(parts)`. */
  function JoinComma(parts: seq<string>): string
    decreases |parts|
  {
    if |parts| == 0 then ""
    else if |parts| == 1 then parts[0]
    else parts[0] + ", " + JoinComma(parts[1..])
  }

  /** The complaint for each truthy choice that names nobody in `valid`, in choice order. */
  function FriendMisses(name: string, cs: seq<Option<string>>, valid: seq<string>): seq<string>
    decreases |cs|
  {
    if |cs| == 0 then []
    else
      var n := |cs| - 1;
      FriendMisses(name, cs[..n], valid) +
      (if Truthy(cs[n]) && cs[n].value !in valid then [name + "'s friend " + cs[n].value] else [])
  }

  /** All friend complaints, youth by youth. */
  function MissingFriends(ps: seq<Youth>, valid: seq<string>): seq<string>
    decreases |ps|
  {
    if |ps| == 0 then []
    else
      var n := |ps| - 1;
      MissingFriends(ps[..n], valid) + FriendMisses(ps[n].name, Choices(ps[n]), valid)
  }

  predicate ChoicesKnown(cs: seq<Option<string>>, valid: seq<string>) {
    forall j :: 0 <= j < |cs| && Truthy(cs[j]) ==> cs[j].value in valid
  }

  lemma {:induction false} FriendMissesEmpty(name: string, cs: seq<Option<string>>, valid: seq<string>)
    ensures FriendMisses(name, cs, valid) == [] <==> ChoicesKnown(cs, valid)
    decreases |cs|
  {
    if |cs| > 0 {
      var n := |cs| - 1;
      FriendMissesEmpty(name, cs[..n], valid);
      assert forall j :: 0 <= j < n ==> cs[..n][j] == cs[j];
    }
  }

  /**
   * No complaint is collected exactly when every truthy choice of every youth names a youth
   * of the list; `None` and empty choices never complain.
   */
  lemma {:induction false} MissingFriendsEmpty(ps: seq<Youth>, valid: seq<string>)
    ensures MissingFriends(ps, valid) == [] <==>
              forall i :: 0 <= i < |ps| ==> ChoicesKnown(Choices(ps[i]), valid)
    decreases |ps|
  {
    if |ps| > 0 {
      var n := |ps| - 1;
      MissingFriendsEmpty(ps[..n], valid);
      FriendMissesEmpty(ps[n].name, Choices(ps[n]), valid);
      assert forall i :: 0 <= i < n ==> ps[..n][i] == ps[i];
    }
  }

  /** Each complaint names a youth and one of its truthy choices that is not a valid name. */
  lemma {:induction false} FriendMissesNamed(name: string, cs: seq<Option<string>>, valid: seq<string>)
    ensures forall m :: m in FriendMisses(name, cs, valid) ==>
              exists j :: 0 <= j < |cs| && Truthy(cs[j]) && cs[j].value !in valid &&
                          m == name + "'s friend " + cs[j].value
    decreases |cs|
  {
    if |cs| > 0 {
      var n := |cs| - 1;
      FriendMissesNamed(name, cs[..n], valid);
      assert forall j :: 0 <= j < n ==> cs[..n][j] == cs[j];
    }
  }

  /** `all_friends_are_valid`: passes, or fails once with every complaint in list order. */
  method AllFriendsAreValid(ps: seq<Youth>) returns (r: Outcome)
    ensures MissingFriends(ps, Names(ps)) == [] ==> r == Pass
    ensures MissingFriends(ps, Names(ps)) != [] ==>
              r == Fail("Invalid friend choices found: " + JoinComma(MissingFriends(ps, Names(ps))))
  {
    var valid := set i | 0 <= i < |ps| :: ps[i].name;
    assert forall x :: x in valid <==> x in Names(ps);
    var missing: seq<string> := [];
    for i := 0 to |ps|
      invariant missing == MissingFriends(ps[..i], Names(ps))
    {
      var y := ps[i];
      var choices := [y.firstChoice, y.secondChoice, y.thirdChoice];
      ghost var before := missing;
      for j := 0 to |choices|
        invariant missing == before + FriendMisses(y.name, choices[..j], Names(ps))
      {
        var choice := choices[j];
        assert choices[..j + 1][..j] == choices[..j];
        if choice.Some? && choice.value != "" && choice.value !in valid {
          missing := missing + [y.name + "'s friend " + choice.value];
        }
      }
      assert choices[..|choices|] == Choices(y);
      assert ps[..i + 1][..i] == ps[..i];
    }
    assert ps[..|ps|] == ps;
    if |missing| > 0 {
      return Fail("Invalid friend choices found: " + JoinComma(missing));
    }
    return Pass;
  }

  /** The complaint for each non-empty part of a `|`-joined parent field that is no adult. */
  function ParentMisses(name: string, parts: seq<string>, adults: seq<string>): seq<string>
    decreases |parts|
  {
    if |parts| == 0 then []
    else
      var n := |parts| - 1;
      ParentMisses(name, parts[..n], adults) +
      (if parts[n] != "" && parts[n] !in adults then [name + "'s parent " + parts[n]] else [])
  }

  /** The parts of a parent field: none for an empty field. */
  function ParentParts(y: Youth): seq<string> {
    if Truthy(y.parentName) then Split(y.parentName.value, '|') else []
  }

  /** All parent complaints, youth by youth. */
  function MissingParents(ps: seq<Youth>, adults: seq<string>): seq<string>
    decreases |ps|
  {
    if |ps| == 0 then []
    else
      var n := |ps| - 1;
      MissingParents(ps[..n], adults) + ParentMisses(ps[n].name, ParentParts(ps[n]), adults)
  }

  predicate PartsKnown(parts: seq<string>, adults: seq<string>) {
    forall j :: 0 <= j < |parts| && parts[j] != "" ==> parts[j] in adults
  }

  lemma {:induction false} ParentMissesEmpty(name: string, parts: seq<string>, adults: seq<string>)
    ensures ParentMisses(name, parts, adults) == [] <==> PartsKnown(parts, adults)
    decreases |parts|
  {
    if |parts| > 0 {
      var n := |parts| - 1;
      ParentMissesEmpty(name, parts[..n], adults);
      assert forall j :: 0 <= j < n ==> parts[..n][j] == parts[j];
    }
  }

  /** A property holds of every youth exactly when it holds of all but the last and of the last. */
  lemma EveryYouthSplit(ps: seq<Youth>, front: seq<Youth>, p: Youth -> bool)
    requires |ps| > 0 && front == ps[..|ps| - 1]
    ensures (forall i :: 0 <= i < |ps| ==> p(ps[i])) <==>
              (forall i :: 0 <= i < |front| ==> p(front[i])) && p(ps[|ps| - 1])
  {
    assert forall i :: 0 <= i < |front| ==> front[i] == ps[i];
  }

  /**
   * Every non-empty `|`-separated part of every non-empty parent field is an adult's name
   * (an empty or missing field has no parts).
   */
  predicate ParentsKnown(ps: seq<Youth>, adults: seq<string>) {
    forall i :: 0 <= i < |ps| ==> PartsKnown(ParentParts(ps[i]), adults)
  }

  /** No complaint is collected exactly when every parent named is an adult. */
  lemma {:induction false} MissingParentsEmpty(ps: seq<Youth>, adults: seq<string>)
    ensures MissingParents(ps, adults) == [] <==> ParentsKnown(ps, adults)
    decreases |ps|
  {
    if |ps| > 0 {
      var n := |ps| - 1;
      MissingParentsEmpty(ps[..n], adults);
      ParentMissesEmpty(ps[n].name, ParentParts(ps[n]), adults);
      var front, last := MissingParents(ps[..n], adults), ParentMisses(ps[n].name, ParentParts(ps[n]), adults);
      assert MissingParents(ps, adults) == front + last;
      assert |front + last| == |front| + |last|;
      EveryYouthSplit(ps, ps[..n], y => PartsKnown(ParentParts(y), adults));
    }
  }

  /** `all_parents_are_valid`: passes, or fails once with every complaint in list order. */
  method AllParentsAreValid(ps: seq<Youth>, adults: seq<string>) returns (r: Outcome)
    ensures MissingParents(ps, adults) == [] ==> r == Pass
    ensures MissingParents(ps, adults) != [] ==>
              r == Fail("Missing parents in adult crews: " + JoinComma(MissingParents(ps, adults)))
  {
    var missing: seq<string> := [];
    for i := 0 to |ps|
      invariant missing == MissingParents(ps[..i], adults)
    {
      var y := ps[i];
      assert ps[..i + 1][..i] == ps[..i];
      if y.parentName.Some? && y.parentName.value != "" {
        var parts := Split(y.parentName.value, '|');
        ghost var before := missing;
        for j := 0 to |parts|
          invariant missing == before + ParentMisses(y.name, parts[..j], adults)
        {
          var part := parts[j];
          assert parts[..j + 1][..j] == parts[..j];
          if part != "" && part !in adults {
            missing := missing + [y.name + "'s parent " + part];
          }
        }
        assert parts[..|parts|] == parts;
      }
    }
    assert ps[..|ps|] == ps;
    if |missing| > 0 {
      return Fail("Missing parents in adult crews: " + JoinComma(missing));
    }
    return Pass;
  }

  // ================================================================ validator and builder disagree

  const TwoParentCenters := [CenterRec("Fayette", [CrewRec("F01", ["Ann Lee", "Bob Lee"])])]
  const TwoParentYouth := Youth("Cam Lee", "Fr", "M", "N", "Youth", [], Some("Ann Lee|Bob Lee"), None, None, None, [])

  lemma TwoParentAdults()
    ensures AdultNames(TwoParentCenters) == ["Ann Lee", "Bob Lee"]
  {
    var centers := TwoParentCenters;
    assert centers[..0] == [];
    assert centers[0].crews[..0] == [];
  }

  lemma TwoParentParts()
    ensures ParentParts(TwoParentYouth) == ["Ann Lee", "Bob Lee"]
  {
    var parts := ["Ann Lee", "Bob Lee"];
    assert parts[1..] == ["Bob Lee"];
    assert JoinWith(parts, '|') == "Ann Lee|Bob Lee";
    SplitJoin(parts, '|');
  }

  /** The parent validator splits the field on `|` and finds both parents among the adults... */
  lemma JoinedParentPasses()
    ensures MissingParents([TwoParentYouth], AdultNames(TwoParentCenters)) == []
  {
    var y := TwoParentYouth;
    var adults := AdultNames(TwoParentCenters);
    TwoParentAdults();
    TwoParentParts();
    var parts := ParentParts(y);
    assert parts[..1] == ["Ann Lee"] && parts[..1][..0] == [];
    assert ParentMisses(y.name, parts, adults) == [];
    assert [y][..0] == [];
  }

  /**
   * ... but the parent rule of the model builder looks the whole field up as one name, so the
   * same youth stops the build.
   */
  lemma JoinedParentRejected()
    ensures FirstMissingParent([TwoParentYouth], AdultNames(TwoParentCenters)) == Some(0)
  {
    var y := TwoParentYouth;
    var adults := AdultNames(TwoParentCenters);
    TwoParentAdults();
    assert |y.parentName.value| != |adults[0]| && |y.parentName.value| != |adults[1]|;
  }
}
