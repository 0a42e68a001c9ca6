# Crew assignment model, in Dafny

The original program assigns youth to work centers and to crews within those centers. It builds
a CP-SAT integer program. The program declares one 0/1 variable per (person, center) pair and
one per (person, center, crew) triple, adds the hard placement rules as linear constraints, and
maximises a weighted sum of soft objectives: friends at the same center, plus gender, school-year
and veteran/new mix within each crew. Before building, the roster is checked: every friend choice
must name a participant, and every listed parent must be an adult on some crew. After solving,
reports count people per center, score friend choices met there, and tally how many youth got
their first, second and third choice.

This project models that core:

* `Linear` (linear.dfy) is the slice of a CP-SAT model the builders use:
  * declared variables with their domains;
  * linear (in)equalities, optionally guarded by a boolean variable (`OnlyEnforceIf`);
  * an objective to maximise.

  An assignment maps every variable to an integer, and a model means the set of assignments that
  satisfy it. `CpModel` is a class whose methods append to those lists.
* Every builder in `Constraints`, `FamilyConstraints`, `FriendConstraints`, `CrewConstraints`,
  `Objectives` and `LpModel` is a method with the source's loops. Each one is proved to append
  exactly what a pure specification function emits, and nothing else. For each such function, a
  `...Meaning` lemma states, for every 0/1 assignment, what its constraints hold *iff*: the
  placement rule that the source's docstring promises.
* `Models` and `Config` hold the records and the classes whose fields the source updates in place
  (`Crew`, `Center`).
* `Cleaning` holds the name lookup and the two roster validators.
* `Analysis` holds the status names and the report counters over a solved model. The solver is
  abstracted as the value it gives each variable.

Python behaviour is modelled explicitly where it matters:

* `str.strip()` and `str.split()` treat as space the ASCII characters Python calls whitespace:
  space, tab through carriage return, and the separators U+001C to U+001F.
* A dict literal with a repeated key keeps the first position and the last value.
* An exception becomes an `Err`/`Fail` value carrying Python's message, such as
  "list index out of range", "division by zero" or "float division by zero".
* A field is "truthy" when it is present and not the empty string.

## Model

| member | source | states |
|---|---|---|
| Linear.CpModel.constructor | src/linear_program/lp_model.py:30 | a new model has no variables, no constraints and no objective |
| Linear.CpModel.NewBoolVar | src/linear_program/lp_model.py:35 | declares one variable with domain 0..1 and changes nothing else |
| Linear.CpModel.NewIntVar | src/linear_program/objectives.py:82 | declares one variable with domain lo..hi and changes nothing else |
| Linear.CpModel.Add | src/linear_program/constraints.py:15-17 | appends one constraint and changes nothing else |
| Linear.CpModel.Maximize | src/linear_program/lp_model.py:72 | sets the objective and keeps variables and constraints |
| Linear.CountOne | src/linear_program/constraints.py:15-17 | over 0/1 variables, a sum equal to 1 holds iff exactly one of them is 1 |
| Linear.CountPositive | src/linear_program/objectives.py:113-114 | over 0/1 variables, a sum of at least 1 holds iff some variable is 1 |
| Linear.AndLinkMeaning | src/linear_program/objectives.py:45-51 | the three inequalities hold iff `same_center` is the AND of the two 0/1 inputs |
| Linear.MinBoundMeaning | src/linear_program/objectives.py:82-84 | a balance variable in 0..cap satisfies both bounds iff it lies in 0..min(x, y, cap) |
| Linear.PresenceMeaning | src/linear_program/objectives.py:112-114 | the two guarded constraints hold iff the flag is 1 exactly when the count is at least 1 |
| Models.Crew.constructor | src/models.py:10-12 | a new crew starts with its adults as members, and size equals the member count |
| Models.Crew.AddMember | src/models.py:14-16 | appends one member, keeps name and adults, and size grows by one |
| Models.Crew.RecomputeSize | src/models.py:18-19 | size equals the number of members |
| Models.Center.constructor | src/models.py:27-29 | a new center records its crews, and the crew count equals their number |
| Models.Center.AddCrew | src/models.py:31-33 | appends the crew, the count grows by one, and the count invariant is kept |
| Models.Center.RemoveCrew | src/models.py:35-37 | removes the first crew equal to the argument and decrements the count; when there is none it fails with "list.remove(x): x not in list" and nothing changes |
| Models.FirstEqual | src/models.py:36 | finds the first position whose crew equals the argument, or reports that there is none |
| Models.NewYouth | src/models.py:58-88 | no sibling field gives no siblings; otherwise at least one sibling part, none containing a pipe, whose pipe-join gives back the field (so, by SplitJoin, exactly `siblings.split('|')`, and `""` gives `[""]`); name, year, gender, history, role, parent, the three choices and past leaders are copied unchanged |
| Models.JoinSplit | src/models.py:72-74 | splitting on the pipe character and joining again gives back the original string |
| Models.SplitJoin | src/models.py:72-74 | joining parts that contain no separator and splitting again gives back the parts |
| Models.Names | src/linear_program/constraints.py:86 | the roster's names in order, with repeats; membership in it is `name in youth_dict` |
| Config.Default | src/config.py:9-21 | crew size 5..7, friend weight 2, every other weight 1 |
| Config.WithHighFriendWeight | src/config.py:23-31 | the default crew sizes with friend weight 4, above the default's |
| Config.WithHighDiversity | src/config.py:33-41 | the default crew sizes with friend weight 1 and diversity weights 2, above friend weight |
| Variables.AssignedMembers | src/linear_program/objectives.py:75-80 | a crew variable is summed iff its person has the trait and is in the roster |
| Variables.RegularYouth | src/linear_program/lp_model.py:52 | keeps exactly the roster entries whose role is "Youth" |
| Variables.RegularYouthCounts | src/linear_program/lp_model.py:52 | each role-"Youth" entry is kept as many times as it occurs, and no other entry is kept |
| Variables.RegularYouthOne | src/linear_program/lp_model.py:52 | a one-entry roster is kept exactly when its role is "Youth" |
| Variables.RegularYouthAppend | src/linear_program/lp_model.py:52 | filtering a concatenation concatenates the filtered parts, so list order is kept |
| Variables.AssignedRegular | src/linear_program/constraints.py:158-160 | summing youth-role crew variables over the regular youth gives the same sum as over the whole roster |
| Constraints.PinCenterMeaning | src/linear_program/constraints.py:19-25 | at one center, a young adult's crew variables are 1 exactly on the crews that list them as adult |
| Constraints.PinnedMeaning | src/linear_program/constraints.py:19-25 | the same, at every center |
| Constraints.OneCrewOfMeaning | src/linear_program/constraints.py:13-25 | a youth is in exactly one crew; a young adult is pinned to their rosters |
| Constraints.OneCrewPerYouthMeaning | src/linear_program/constraints.py:5-25 | the rule holds for every person on the roster |
| Constraints.AddPinsAtCenter | src/linear_program/constraints.py:20-25 | appends exactly the pinning constraints of one center |
| Constraints.AddPins | src/linear_program/constraints.py:19-25 | appends exactly the pinning constraints of every center |
| Constraints.AddOneCrewPerYouth | src/linear_program/constraints.py:5-25 | appends exactly the one-crew-per-youth constraints, and the objective is untouched |
| Constraints.LinkOfMeaning | src/linear_program/constraints.py:38-42 | a person's center variable equals the sum of their crew variables there, at every center |
| Constraints.LinkCrewAndCenterMeaning | src/linear_program/constraints.py:28-42 | the same, for every person |
| Constraints.AddLinks | src/linear_program/constraints.py:38-42 | appends exactly one person's link constraints |
| Constraints.AddLinkCrewAndCenterVars | src/linear_program/constraints.py:28-42 | appends exactly the link constraints |
| Constraints.CenterSumIsCrewSum | src/linear_program/constraints.py:37-42 | under the links, a person's center count equals their crew count |
| Constraints.CenterCountBound | src/linear_program/constraints.py:39-41 | one center's crew count is at most the person's count over all crews |
| Constraints.OneCenterPerYouth | src/linear_program/constraints.py:13-42 | one crew and the links together put a youth at exactly one center |
| FamilyConstraints.CrewAdultsMembers | src/linear_program/constraints.py:60 | a name is among a center's adults iff some crew lists it |
| FamilyConstraints.AdultNamesMembers | src/linear_program/constraints.py:60 | a name is in `adult_names` iff some crew of some center lists it |
| FamilyConstraints.FirstMissingParent | src/linear_program/constraints.py:61-64 | the first youth with a parent who is on no crew, or none when every listed parent is an adult |
| FamilyConstraints.ParentCrewsMeaning | src/linear_program/constraints.py:70-72 | the youth is in none of the crews the parent leads |
| FamilyConstraints.ParentCenterMeaning | src/linear_program/constraints.py:65-74 | at one center: placed there iff the parent is there, and never in the parent's crew |
| FamilyConstraints.ParentOfMeaning | src/linear_program/constraints.py:62-74 | the same, at every center |
| FamilyConstraints.ParentCenterRule | src/linear_program/constraints.py:61-74 | the rule holds for every youth with a parent |
| FamilyConstraints.ParentPlacesYouth | src/linear_program/constraints.py:63-68 | a listed parent who passes the check is on the roster of some center |
| FamilyConstraints.AddParentCrews | src/linear_program/constraints.py:70-72 | appends exactly the not-in-parent's-crew constraints of one center |
| FamilyConstraints.AddParentCenter | src/linear_program/constraints.py:65-74 | appends exactly one center's parent constraints |
| FamilyConstraints.AddParentCenters | src/linear_program/constraints.py:65-74 | appends exactly every center's parent constraints for one youth |
| FamilyConstraints.EnforceParentCenter | src/linear_program/constraints.py:45-74 | fails with the source's message for the first youth whose parent is on no crew; otherwise appends exactly the parent constraints |
| FamilyConstraints.SameCentersMeaning | src/linear_program/constraints.py:90-91 | two people have equal center variables at every center |
| FamilyConstraints.SiblingsOfMeaning | src/linear_program/constraints.py:88-91 | a youth shares every center variable with each sibling on the roster |
| FamilyConstraints.SiblingCenterMeaning | src/linear_program/constraints.py:77-91 | the rule holds for every youth |
| FamilyConstraints.SiblingFollows | src/linear_program/constraints.py:86-91 | a youth at a center has every rostered sibling at that center too |
| FamilyConstraints.AddSiblingAt | src/linear_program/constraints.py:90-91 | appends exactly the equalities for one sibling pair |
| FamilyConstraints.AddSiblingsOf | src/linear_program/constraints.py:88-91 | appends exactly one youth's sibling equalities |
| FamilyConstraints.EnforceSiblingCenter | src/linear_program/constraints.py:77-91 | appends exactly the sibling constraints |
| FriendConstraints.Present | src/linear_program/constraints.py:105-106 | the choices that are not None, no more than three |
| FriendConstraints.Known | src/linear_program/constraints.py:130-131 | the choices that are present and name someone on the roster |
| FriendConstraints.PresentAppend | src/linear_program/constraints.py:106 | the None filter distributes over concatenation, so rank order and repeated choices are kept |
| FriendConstraints.PresentOne | src/linear_program/constraints.py:106 | one choice is kept, once, iff it is not None |
| FriendConstraints.KnownAppend | src/linear_program/constraints.py:131 | the present-and-rostered filter distributes over concatenation, so rank order and repeats are kept |
| FriendConstraints.KnownOne | src/linear_program/constraints.py:131 | one choice is kept, once, iff it is not None and is on the roster |
| FriendConstraints.ApartAtMeaning | src/linear_program/constraints.py:110-115 | at one center, the person and the friend share no crew |
| FriendConstraints.ApartMeaning | src/linear_program/constraints.py:109-115 | the same, at every center |
| FriendConstraints.FriendSepFriendsMeaning | src/linear_program/constraints.py:105-115 | a person shares no crew with any rostered friend choice |
| FriendConstraints.FriendSeparationMeaning | src/linear_program/constraints.py:94-115 | the rule holds for every person |
| FriendConstraints.AddFriendSepCenter | src/linear_program/constraints.py:110-115 | appends exactly one center's separation constraints |
| FriendConstraints.AddFriendSepCenters | src/linear_program/constraints.py:109-115 | appends exactly every center's separation constraints for one pair |
| FriendConstraints.AddFriendSepFriends | src/linear_program/constraints.py:105-115 | appends exactly one person's separation constraints |
| FriendConstraints.EnforceFriendSeparation | src/linear_program/constraints.py:94-115 | appends exactly the separation constraints |
| FriendConstraints.NearFriendAtMeaning | src/linear_program/constraints.py:134-135 | a person at a center has at least one listed friend there |
| FriendConstraints.FriendCenterOfMeaning | src/linear_program/constraints.py:130-135 | the same at every center, when some choice is on the roster |
| FriendConstraints.FriendCenterMeaning | src/linear_program/constraints.py:118-135 | the rule holds for every person |
| FriendConstraints.FriendNearButApart | src/linear_program/constraints.py:94-135 | with both rules, a person at a center has a rostered friend at that same center |
| FriendConstraints.AddFriendCenterOf | src/linear_program/constraints.py:129-135 | appends exactly one person's friend-center constraints |
| FriendConstraints.EnforceFriendCenter | src/linear_program/constraints.py:118-135 | appends exactly the friend-center constraints |
| CrewConstraints.EvalLoad | src/linear_program/constraints.py:158-163 | a crew's load is its assigned youth-role members plus its adult count |
| CrewConstraints.CrewLinkMeaning | src/linear_program/constraints.py:170-172 | every youth-role person in a crew is at that crew's center |
| CrewConstraints.CrewSizeAtMeaning | src/linear_program/constraints.py:156-172 | the crew's load lies within min..max crew size, and the links hold |
| CrewConstraints.CrewSizeCenterMeaning | src/linear_program/constraints.py:155-172 | the same for every crew of a center |
| CrewConstraints.CrewSizeMeaning | src/linear_program/constraints.py:138-172 | the same for every crew of every center |
| CrewConstraints.CrewLinkRegular | src/linear_program/lp_model.py:52 | the links over only the regular youth are those over the whole roster |
| CrewConstraints.CrewSizeRegular | src/linear_program/lp_model.py:62 | passing only the regular youth emits the same crew-size constraints as the whole roster |
| CrewConstraints.AddCrewLinks | src/linear_program/constraints.py:170-172 | appends exactly one crew's link constraints |
| CrewConstraints.AddCrewSizeAt | src/linear_program/constraints.py:158-172 | appends exactly one crew's size constraints |
| CrewConstraints.AddCrewSizeCenter | src/linear_program/constraints.py:156-172 | appends exactly one center's crew-size constraints |
| CrewConstraints.EnforceCrewSize | src/linear_program/constraints.py:138-172 | appends exactly the crew-size constraints |
| CrewConstraints.NotLedAtMeaning | src/linear_program/constraints.py:190-193 | at one center, the youth is in no crew led by one of their past leaders |
| CrewConstraints.PastLeaderOfMeaning | src/linear_program/constraints.py:188-193 | the same, at every center |
| CrewConstraints.PastLeaderMeaning | src/linear_program/constraints.py:175-193 | the rule holds for every youth |
| CrewConstraints.AddLeaderCenter | src/linear_program/constraints.py:190-193 | appends exactly one center's past-leader constraints |
| CrewConstraints.AddPastLeaderOf | src/linear_program/constraints.py:188-193 | appends exactly one youth's past-leader constraints |
| CrewConstraints.EnforcePastLeader | src/linear_program/constraints.py:175-193 | appends exactly the past-leader constraints |
| Objectives.InsertMeaning | src/linear_program/objectives.py:28-32 | a dict-literal insert adds the key or overwrites its value in place, and keeps the keys distinct |
| Objectives.FriendWeightsSteps | src/linear_program/objectives.py:28-32 | the weights dict is built by inserting first 3, second 2, third 1, in that order |
| Objectives.FriendWeightsMeaning | src/linear_program/objectives.py:28-32 | the keys are distinct and every choice is one; each key is a choice and carries the weight of its last rank |
| Objectives.FriendAtMeaning | src/linear_program/objectives.py:37-52 | for a youth, the flag is the AND of both center variables; a young adult adds no constraint |
| Objectives.FriendAtValue | src/linear_program/objectives.py:37-52 | for a youth, the term is worth weight × friend weight exactly when both are at the center; for a young adult on a roster there, weight × friend weight × the friend's center variable; otherwise 0 |
| Objectives.FriendItemMeaning | src/linear_program/objectives.py:33-52 | a key that is None or off the roster adds nothing; otherwise the flags hold at every center |
| Objectives.FriendPrefOfMeaning | src/linear_program/objectives.py:26-52 | one person's friend constraints hold iff all their flags are set |
| Objectives.FriendPreferenceMeaning | src/linear_program/objectives.py:6-54 | the same, for every person |
| Objectives.FriendCoefs | src/linear_program/objectives.py:41-52 | every friend coefficient lies between 0 and 3 × friend weight |
| Objectives.AddFriendAt | src/linear_program/objectives.py:37-52 | appends exactly one center's friend variables and constraints, and returns its terms |
| Objectives.AddFriendItem | src/linear_program/objectives.py:33-52 | the same, for one dict item |
| Objectives.AddFriendPrefOf | src/linear_program/objectives.py:28-52 | the same, for one person |
| Objectives.AddFriendPreference | src/linear_program/objectives.py:6-54 | the same, for the whole roster |
| Objectives.BalanceAtMeaning | src/linear_program/objectives.py:82-85 | the balance variable is in its domain and its bounds hold iff it lies in 0..min(count x, count y, max crew size) |
| Objectives.GenderCenterMeaning | src/linear_program/objectives.py:74-85 | every crew's gender balance lies in 0..min(females, males, max crew size) |
| Objectives.GenderDiversityMeaning | src/linear_program/objectives.py:57-87 | the same, at every center |
| Objectives.GenderTermCount | src/linear_program/objectives.py:73-85 | one gender term per crew |
| Objectives.GenderCoefs | src/linear_program/objectives.py:85 | every gender term's coefficient is exactly the gender weight |
| Objectives.AddGenderCenter | src/linear_program/objectives.py:74-85 | appends exactly one center's gender variables and bounds, and returns their terms |
| Objectives.AddGenderDiversity | src/linear_program/objectives.py:57-87 | the same, for every center |
| Objectives.AddBalanceAt | src/linear_program/objectives.py:82-85 | appends exactly one balance variable and its two bounds, and returns its weighted term |
| Objectives.YearAtMeaning | src/linear_program/objectives.py:108-115 | the year flag is 1 iff some youth of that year is in the crew |
| Objectives.YearCrewMeaning | src/linear_program/objectives.py:107-115 | the same, for each of Fr, So, Jr, Sr |
| Objectives.YearCenterMeaning | src/linear_program/objectives.py:106-116 | the same, for every crew of a center |
| Objectives.YearDiversityMeaning | src/linear_program/objectives.py:90-117 | the same, at every center |
| Objectives.YearTermCount | src/linear_program/objectives.py:104-115 | four year flags and four terms per crew |
| Objectives.YearCoefs | src/linear_program/objectives.py:115 | every year term's coefficient is exactly the year weight |
| Objectives.AddYearCrew | src/linear_program/objectives.py:107-115 | appends exactly one crew's year flags and constraints, and returns their terms |
| Objectives.AddYearCenter | src/linear_program/objectives.py:106-116 | the same, for one center |
| Objectives.AddYearDiversity | src/linear_program/objectives.py:90-117 | the same, for every center |
| Objectives.HistoryCenterMeaning | src/linear_program/objectives.py:136-148 | every crew's history balance lies in 0..min(veterans, new, max crew size) |
| Objectives.HistoryDiversityMeaning | src/linear_program/objectives.py:120-150 | the same, at every center |
| Objectives.HistoryTermCount | src/linear_program/objectives.py:136-148 | one history term per crew |
| Objectives.HistoryCoefs | src/linear_program/objectives.py:148 | every history term's coefficient is exactly the history weight |
| Objectives.AddHistoryCenter | src/linear_program/objectives.py:136-148 | appends exactly one center's history variables and bounds, and returns their terms |
| Objectives.AddHistoryDiversity | src/linear_program/objectives.py:120-150 | the same, for every center |
| LpModel.CenterNames | src/linear_program/lp_model.py:27 | the center names, in order |
| LpModel.CenterLayoutCount | src/linear_program/lp_model.py:34-38 | one center variable per (person, center) pair |
| LpModel.CrewLayoutCount | src/linear_program/lp_model.py:42-48 | one crew variable per (person, crew) pair |
| LpModel.DeclareCentersFor | src/linear_program/lp_model.py:34-38 | declares one person's center variables, and the dict gains exactly their keys |
| LpModel.DeclareCenterVars | src/linear_program/lp_model.py:34-38 | declares every center variable, and `person_center` has exactly the (name, center) keys |
| LpModel.DeclareCrewFor | src/linear_program/lp_model.py:45-48 | declares one crew's variables, and the dict gains exactly their keys |
| LpModel.DeclareCrewsAt | src/linear_program/lp_model.py:44-48 | declares one center's crew variables, and the dict gains exactly their keys |
| LpModel.DeclareCrewVars | src/linear_program/lp_model.py:42-48 | declares every crew variable, and `person_crew` has exactly the (name, center, crew) keys |
| LpModel.HardPartMeaning | src/linear_program/lp_model.py:55-63 | the hard constraints hold iff every placement rule above holds |
| LpModel.SoftCoefs | src/linear_program/lp_model.py:66-72 | with a valid configuration (non-negative weights), no objective term has a negative coefficient |
| LpModel.YouthPlaced | src/linear_program/lp_model.py:55-56 | in a solution, every youth is in exactly one crew and at exactly one center |
| LpModel.AddHardConstraints | src/linear_program/lp_model.py:55-63 | fails at the parent check with the source's message, or appends exactly the hard constraints |
| LpModel.AddObjectives | src/linear_program/lp_model.py:66-70 | appends exactly the objective builders' variables and constraints, and returns their terms in order |
| LpModel.CreateCrewAssignmentModel | src/linear_program/lp_model.py:23-74 | a fresh model with both variable dicts keyed as declared; on the parent error, fails with it; otherwise holds exactly the hard and soft parts and maximises the sum of the terms |
| Cleaning.TrimLeftMeaning | src/cleaning.py:13 | drops exactly the leading whitespace |
| Cleaning.TrimRightMeaning | src/cleaning.py:13 | drops exactly the trailing whitespace |
| Cleaning.StripMeaning | src/cleaning.py:13 | the stripped string is the input without its leading and trailing whitespace |
| Cleaning.WordMeaning | src/cleaning.py:14 | the longest prefix without whitespace |
| Cleaning.FirstTokenMeaning | src/cleaning.py:14 | there is no first token iff the name is all whitespace; otherwise it is nonempty, starts at the first non-space character and has no whitespace |
| Cleaning.RowKeysShape | src/cleaning.py:12-20 | an all-whitespace full name has no keys; otherwise the keys are the stripped last name and "Last, F" with the first character of the first token |
| Cleaning.LookupFails | src/cleaning.py:14-20 | the lookup fails with "list index out of range" iff some row's full name is all whitespace |
| Cleaning.LookupErrStays | src/cleaning.py:11-20 | once a prefix fails, the whole lookup fails the same way |
| Cleaning.LookupKeys | src/cleaning.py:8-22 | a key is in the lookup iff some row produces it |
| Cleaning.LookupLastWins | src/cleaning.py:17-20 | a key maps to the full name of the last row that produces it |
| Cleaning.GetFullNameLookup | src/cleaning.py:6-22 | the loop computes the lookup |
| Cleaning.FriendMissesEmpty | src/cleaning.py:225-228 | one youth reports nothing iff every truthy choice is a valid name |
| Cleaning.MissingFriendsEmpty | src/cleaning.py:224-228 | nothing is reported iff every youth's truthy choices are valid names |
| Cleaning.FriendMissesNamed | src/cleaning.py:226-228 | each report names a truthy choice that is not a valid name |
| Cleaning.AllFriendsAreValid | src/cleaning.py:219-232 | passes iff nothing is missing; otherwise fails with the source's message listing every miss |
| Cleaning.ParentMissesEmpty | src/cleaning.py:211-213 | one youth reports nothing iff every nonempty part of the parent field is an adult |
| Cleaning.MissingParentsEmpty | src/cleaning.py:207-213 | nothing is reported iff every youth's parent parts are adults |
| Cleaning.AllParentsAreValid | src/cleaning.py:204-216 | passes iff nothing is missing; otherwise fails with the source's message listing every miss |
| Cleaning.JoinedParentPasses | src/cleaning.py:204-216 | a youth whose parent field is "Ann Lee" and "Bob Lee" joined by a pipe, with both on crews, passes the validator |
| Cleaning.JoinedParentRejected | src/linear_program/constraints.py:62-64 | the same youth is rejected by the builder's parent check, which looks up the whole field as one name |
| Analysis.StatusToString | src/analysis.py:212-222 | OPTIMAL, FEASIBLE, INFEASIBLE and MODEL_INVALID each get their own name; every other code gets "UNKNOWN" |
| Analysis.StatusNamesDistinct | src/analysis.py:212-222 | the four named statuses get distinct names |
| Analysis.OccursMeaning | src/analysis.py:12-13 | a name occurs in the center list iff it is one of the center names, the keys of the per-center dicts |
| Analysis.ScoreOfBounds | src/analysis.py:22-30 | one person's score at one center lies between 0 and 6 |
| Analysis.InsertTotal | src/analysis.py:22-26 | a dict-literal insert of a non-negative weight keeps the weights non-negative and adds at most that weight |
| Analysis.FriendScoreAt | src/analysis.py:22-30 | the loop computes the person's score at the center |
| Analysis.VisitCenter | src/analysis.py:18-30 | a visit adds the presence bit to the people count and the gain to the score |
| Analysis.VisitNext | src/analysis.py:17-30 | visiting the next center extends the per-center counts and the running total by that center |
| Analysis.AddAtCenters | src/analysis.py:17-30 | one person's pass adds, at each center, that center's bit and gain once per occurrence of its name |
| Analysis.CalculateFriendScores | src/analysis.py:6-40 | fails iff the roster is empty, with "float division by zero" when there is a center (the scores are floats) and "division by zero" when there is none; otherwise each center's count and score are the column sums (times the name's occurrences), and the total is the sum over all centers |
| Analysis.SumSwap | src/analysis.py:16-38 | summing person by person equals summing center by center |
| Analysis.PresenceCount | src/analysis.py:18-19 | a person's presence over all centers is the count of their center variables set |
| Analysis.PeopleBound | src/analysis.py:16-19 | when no one is at two centers, the people counted are at most the roster size |
| Analysis.EveryYouthCounted | src/analysis.py:16-19 | in a solution of the hard constraints with only youth, the people counted equal the roster size |
| Analysis.SameCenter | src/analysis.py:107-114 | the loop with its `break` finds a center holding both iff one exists |
| Analysis.CalculateFriendChoiceStats | src/analysis.py:85-126 | "division by zero" iff the roster is empty; otherwise the first, second and third hits, the multiple-friend count and the roster size |
| Analysis.ChoiceStatsBounds | src/analysis.py:96-117 | each count is at most the roster size, and twice the multiple-friend count is at most the total number of hits |

## Left out

- The CP-SAT solver is not modelled. A solution is any assignment; the reports read it as a function from variables to integers.
- The CP-SAT status constants are library values. `Analysis` assumes OR-tools' numbering: UNKNOWN 0, MODEL_INVALID 1, FEASIBLE 2, INFEASIBLE 3, OPTIMAL 4.
- Variables are identified by structured keys (`Linear.Var`) built from the names they are created for, not by the CP-SAT objects. In CP-SAT a name is only a label, and every `NewBoolVar`/`NewIntVar` call creates a distinct variable. Where the source creates several helpers with the same parts, the model has one variable that carries every copy's constraints and terms. This happens with a `same_center` flag for two youth with the same name and friend, and with a balance variable or year flag for two crews with the same name in one center. The merge keeps the feasible assignments of the person variables and the optimal objective value:
  - a `same_center` flag and a year flag are fixed by their constraints, so the copies are equal anyway;
  - the balance copies have the same bounds, so each is at most the same minimum, and the sum of their weighted terms reaches the same maximum.

  The person variables themselves are keyed by the dicts `person_center` and `person_crew`. A repeated name therefore reuses one entry, as in the source, where the overwritten variable stays unconstrained and out of the objective.
- The progress `print` calls at src/linear_program/lp_model.py:26-28 are I/O and are left out.
- The sibling crew-separation rule (src/linear_program/lp_model.py:9 and 59) is not part of this model. That function is imported and called but not defined in the constraints module.
- LpModel.CreateCrewAssignmentModel follows the evident intent of src/linear_program/lp_model.py. As written, the function never builds a model:
  - line 9 imports a function the constraints module does not define, so importing the module raises ImportError;
  - without that import, line 58 raises TypeError, because it passes five arguments to a four-parameter function;
  - lines 60 and 61 pass the same extra `youth_dict` argument;
  - line 62 binds `regular_youth` to `person_center`, `centers` to `youth_list` and `cfg` to `centers`, and leaves `config` missing, which raises TypeError.

  The model passes the arguments the definitions take: `person_center`, then the regular youth, the centers and the config for line 62. Each builder recomputes `youth_dict` from the roster as its own body does.
- FamilyConstraints.EnforceSiblingCenter reads the `siblings` field; the source at src/linear_program/constraints.py:88 reads `siblings_list`, which `Youth` does not have.
- FamilyConstraints.EnforceParentCenter treats the parent field as one name, as the code at src/linear_program/constraints.py:62-72 does. The data pipeline at src/cleaning.py:116-121 joins several parents with `|`. `Cleaning.JoinedParentPasses` and `Cleaning.JoinedParentRejected` show a roster that the validator accepts and the builder rejects.
- Analysis.CalculateFriendScores keeps integer counters. It does not model the normalised per-center averages or the rounded float average at src/analysis.py:32-38, because those are floating point. Only the failure of the average on an empty roster is modelled, with Python's message: "float division by zero" when there is a center, "division by zero" when there is none.
- Analysis.CalculateFriendChoiceStats returns the integer counts. It does not model the rounded percentages at src/analysis.py:120-126, which are floating point.
- The other reports in src/analysis.py (historical friend scores, printing, data frames) are not part of this model. The data-frame pipelines in src/cleaning.py, the visualization, writer and main modules are not part of it either: they are I/O and table plumbing.
- Cleaning.StripMeaning and Cleaning.WordMeaning treat only the ASCII whitespace characters as space. Python's `str.strip()` and `str.split()` also treat non-ASCII Unicode whitespace, such as U+0085, U+00A0 and U+2028.
- Cleaning.GetFullNameLookup reads each row as a (full name, last name) pair of strings. A missing column or a non-string cell (a Python `KeyError` or `AttributeError`) is not modelled.
- Models.Crew.constructor gives `members` the adults' value. Whether the source's two lists alias one another depends on pydantic's copying, which is not modelled.
