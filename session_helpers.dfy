/** The session helpers of utils/session_helpers.py: a duration estimate from the transcript,
    summary counts, a completeness check of an extraction dict, and a group-by-member view. */
module SessionHelpers {
  import opened Values
  import opened Text
  import opened Seqs
  import Records

  /** An extraction dict as these helpers see it: only the keys they read. */
  datatype Entry = Entry(matchedMemberId: Field<int>, status: Field<string>, goal: Field<string>)

  /** The session dict; a list key is `None` when absent. */
  datatype SessionData = SessionData(
    attendance: Option<seq<Entry>>,
    goals: Option<seq<Entry>>,
    challenges: Option<seq<Entry>>,
    marketingActivities: Option<seq<Entry>>,
    stucks: Option<seq<Entry>>,
    sentiment: Field<Records.SentimentRecord>)

  // ---------------------------------------------------------------------------------------
  // Duration estimate
  // ---------------------------------------------------------------------------------------

  /** Minutes at 150 words a minute, rounded down; `None` when there is no word. */
  function CalculateSessionDuration(transcript: string): (r: Option<int>)
    ensures r == (if WordCount(transcript) == 0 then None else Some(WordCount(transcript) / 150))
    ensures r.None? <==> AllChars(transcript, IsSpace)
  {
    WordCountZero(transcript);
    if transcript == [] then None else EstimatedMinutes(WordCount(transcript))
  }

  /** `int(word_count / 150)` when that float is positive, else `None`. */
  function EstimatedMinutes(wordCount: nat): (r: Option<int>)
    ensures r == (if wordCount == 0 then None else Some(wordCount / 150))
  {
    var estimatedMinutes := wordCount as real / 150.0;
    var q := wordCount / 150;
    assert q as real * 150.0 <= wordCount as real < (q + 1) as real * 150.0;
    if estimatedMinutes > 0.0 then Some(estimatedMinutes.Floor) else None
  }

  /** A transcript of 1 to 149 words is estimated at zero minutes, not `None`. */
  lemma ShortTranscriptIsZeroMinutes(transcript: string)
    requires 1 <= WordCount(transcript) < 150
    ensures CalculateSessionDuration(transcript) == Some(0)
  {
    var r := CalculateSessionDuration(transcript);
    assert r == Some(WordCount(transcript) / 150);
    SmallQuotient(WordCount(transcript));
  }

  lemma SmallQuotient(n: nat)
    requires n < 150
    ensures n / 150 == 0
  {
  }

  // ---------------------------------------------------------------------------------------
  // Summary counts
  // ---------------------------------------------------------------------------------------

  datatype SummaryStats = SummaryStats(
    totalAttendance: int,
    presentCount: int,
    absentCount: int,
    goalsCount: int,
    challengesCount: int,
    stucksCount: int,
    hasSentiment: bool)

  /** Attendance entries whose `status` is `'present'`. */
  function PresentCount(xs: seq<Entry>): (n: nat)
    ensures n <= |xs|
  {
    if xs == [] then 0
    else PresentCount(xs[..|xs| - 1]) + (if xs[|xs| - 1].status.Raw() == Some("present") then 1 else 0)
  }

  lemma {:induction false} PresentCountAll(xs: seq<Entry>)
    ensures PresentCount(xs) == |xs| <==> forall i :: 0 <= i < |xs| ==> xs[i].status.Raw() == Some("present")
    decreases |xs|
  {
    if xs != [] {
      var init := xs[..|xs| - 1];
      assert forall i :: 0 <= i < |init| ==> init[i] == xs[i];
      PresentCountAll(init);
    }
  }

  function GetSessionSummaryStats(d: SessionData): (s: SummaryStats)
    ensures s.totalAttendance == |d.attendance.GetOr([])| && s.goalsCount == |d.goals.GetOr([])|
    ensures s.challengesCount == |d.challenges.GetOr([])| && s.stucksCount == |d.stucks.GetOr([])|
    ensures s.presentCount == PresentCount(d.attendance.GetOr([]))
    ensures 0 <= s.presentCount && 0 <= s.absentCount
    ensures s.presentCount + s.absentCount == s.totalAttendance
    ensures s.hasSentiment <==> d.sentiment.Raw().Some?
  {
    var attendance := d.attendance.GetOr([]);
    var presentCount := PresentCount(attendance);
    SummaryStats(
      |attendance|, presentCount, |attendance| - presentCount,
      |d.goals.GetOr([])|, |d.challenges.GetOr([])|, |d.stucks.GetOr([])|,
      d.sentiment.Raw().Some?)
  }

  /** No absence is counted exactly when every attendance entry says `'present'`. */
  lemma NoAbsentIffAllPresent(d: SessionData)
    ensures GetSessionSummaryStats(d).absentCount == 0 <==>
      forall i :: 0 <= i < |d.attendance.GetOr([])| ==> d.attendance.GetOr([])[i].status.Raw() == Some("present")
  {
    PresentCountAll(d.attendance.GetOr([]));
  }

  // ---------------------------------------------------------------------------------------
  // Completeness check
  // ---------------------------------------------------------------------------------------

  const RequiredKeys: seq<string> := ["attendance", "goals", "challenges", "marketing_activities", "stucks", "sentiment"]

  /** `key in session_data`. */
  predicate HasKey(d: SessionData, key: string) {
    match key
    case "attendance" => d.attendance.Some?
    case "goals" => d.goals.Some?
    case "challenges" => d.challenges.Some?
    case "marketing_activities" => d.marketingActivities.Some?
    case "stucks" => d.stucks.Some?
    case "sentiment" => !d.sentiment.Missing?
    case _ => false
  }

  function MissingKeyMessage(key: string): string {
    "Missing required key: " + key
  }

  /** One message per key of `keys` that the dict lacks, in the order of `keys`. */
  function MissingKeyErrors(d: SessionData, keys: seq<string>): (r: seq<string>)
    ensures |r| <= |keys|
  {
    if keys == [] then []
    else
      var key := keys[|keys| - 1];
      MissingKeyErrors(d, keys[..|keys| - 1]) + (if HasKey(d, key) then [] else [MissingKeyMessage(key)])
  }

  function AttendanceErrors(xs: seq<Entry>): seq<string> {
    if xs == [] then []
    else
      var idx := |xs| - 1;
      AttendanceErrors(xs[..idx]) +
      (if xs[idx].matchedMemberId.Missing? then ["Attendance record " + Digits(idx) + " missing member ID"] else []) +
      (if xs[idx].status.Missing? then ["Attendance record " + Digits(idx) + " missing status"] else [])
  }

  function GoalErrors(xs: seq<Entry>): seq<string> {
    if xs == [] then []
    else
      var idx := |xs| - 1;
      GoalErrors(xs[..idx]) +
      (if xs[idx].matchedMemberId.Missing? then ["Goal " + Digits(idx) + " missing member ID"] else []) +
      (if !TruthyStr(xs[idx].goal.Raw()) then ["Goal " + Digits(idx) + " missing goal text"] else [])
  }

  const NoAttendanceMessage := "No attendance records found"

  /** The error list of the validation, in the order its checks run. */
  function ValidationErrors(d: SessionData): seq<string> {
    MissingKeyErrors(d, RequiredKeys) +
    (if TruthySeq(d.attendance) && |d.attendance.value| == 0 then [NoAttendanceMessage] else []) +
    AttendanceErrors(d.attendance.GetOr([])) +
    GoalErrors(d.goals.GetOr([]))
  }

  method ValidateSessionExtractions(d: SessionData) returns (valid: bool, errors: seq<string>)
    ensures errors == ValidationErrors(d)
    ensures valid <==> errors == []
  {
    errors := CheckRequiredKeys(d);
    if TruthySeq(d.attendance) && |d.attendance.value| == 0 {
      errors := errors + [NoAttendanceMessage];
    }
    var attendanceErrors := CheckAttendance(d.attendance.GetOr([]));
    var goalErrors := CheckGoals(d.goals.GetOr([]));
    errors := errors + attendanceErrors + goalErrors;
    valid := |errors| == 0;
  }

  /** The loop over the required keys. */
  method CheckRequiredKeys(d: SessionData) returns (errors: seq<string>)
    ensures errors == MissingKeyErrors(d, RequiredKeys)
  {
    errors := [];
    for i := 0 to |RequiredKeys|
      invariant errors == MissingKeyErrors(d, RequiredKeys[..i])
    {
      assert RequiredKeys[..i + 1][..i] == RequiredKeys[..i];
      if !HasKey(d, RequiredKeys[i]) {
        errors := errors + [MissingKeyMessage(RequiredKeys[i])];
      }
    }
    assert RequiredKeys[..|RequiredKeys|] == RequiredKeys;
  }

  /** The loop over the attendance records. */
  method CheckAttendance(attendance: seq<Entry>) returns (errors: seq<string>)
    ensures errors == AttendanceErrors(attendance)
  {
    errors := [];
    for idx := 0 to |attendance|
      invariant errors == AttendanceErrors(attendance[..idx])
    {
      assert attendance[..idx + 1][..idx] == attendance[..idx];
      if attendance[idx].matchedMemberId.Missing? {
        errors := errors + ["Attendance record " + Digits(idx) + " missing member ID"];
      }
      if attendance[idx].status.Missing? {
        errors := errors + ["Attendance record " + Digits(idx) + " missing status"];
      }
    }
    assert attendance[..|attendance|] == attendance;
  }

  /** The loop over the goals. */
  method CheckGoals(goals: seq<Entry>) returns (errors: seq<string>)
    ensures errors == GoalErrors(goals)
  {
    errors := [];
    for idx := 0 to |goals|
      invariant errors == GoalErrors(goals[..idx])
    {
      assert goals[..idx + 1][..idx] == goals[..idx];
      if goals[idx].matchedMemberId.Missing? {
        errors := errors + ["Goal " + Digits(idx) + " missing member ID"];
      }
      if !TruthyStr(goals[idx].goal.Raw()) {
        errors := errors + ["Goal " + Digits(idx) + " missing goal text"];
      }
    }
    assert goals[..|goals|] == goals;
  }

  /** Every message of the attendance checks starts with `A`. */
  lemma {:induction false} AttendanceErrorsInitial(xs: seq<Entry>)
    ensures forall m :: m in AttendanceErrors(xs) ==> |m| > 0 && m[0] == 'A'
    decreases |xs|
  {
    if xs != [] {
      var idx := |xs| - 1;
      AttendanceErrorsInitial(xs[..idx]);
      var a := "Attendance record " + Digits(idx) + " missing member ID";
      var b := "Attendance record " + Digits(idx) + " missing status";
      assert a[0] == 'A' && b[0] == 'A';
    }
  }

  /** Every message of the goal checks starts with `G`. */
  lemma {:induction false} GoalErrorsInitial(xs: seq<Entry>)
    ensures forall m :: m in GoalErrors(xs) ==> |m| > 0 && m[0] == 'G'
    decreases |xs|
  {
    if xs != [] {
      var idx := |xs| - 1;
      GoalErrorsInitial(xs[..idx]);
      var a := "Goal " + Digits(idx) + " missing member ID";
      var b := "Goal " + Digits(idx) + " missing goal text";
      assert a[0] == 'G' && b[0] == 'G';
    }
  }

  lemma {:induction false} MissingKeyErrorsIff(d: SessionData, keys: seq<string>, m: string)
    ensures m in MissingKeyErrors(d, keys) <==> exists k :: k in keys && !HasKey(d, k) && m == MissingKeyMessage(k)
    decreases |keys|
  {
    if keys != [] {
      var init := keys[..|keys| - 1];
      MissingKeyErrorsIff(d, init, m);
      assert keys == init + [keys[|keys| - 1]];
    }
  }

  /** The guard `get('attendance') and len(...) == 0` never holds: that message is never produced. */
  lemma NoAttendanceMessageNeverProduced(d: SessionData)
    ensures NoAttendanceMessage !in ValidationErrors(d)
  {
    AttendanceErrorsInitial(d.attendance.GetOr([]));
    GoalErrorsInitial(d.goals.GetOr([]));
    MissingKeyErrorsIff(d, RequiredKeys, NoAttendanceMessage);
  }

  /** The messages starting with `M` are those of the key check. */
  lemma KeyMessagesOnly(d: SessionData, m: string)
    requires |m| > 0 && m[0] == 'M'
    ensures m in ValidationErrors(d) <==> m in MissingKeyErrors(d, RequiredKeys)
  {
    AttendanceErrorsInitial(d.attendance.GetOr([]));
    GoalErrorsInitial(d.goals.GetOr([]));
    assert NoAttendanceMessage[0] == 'N';
  }

  /** Distinct keys give distinct messages. */
  lemma MissingKeyMessageInjective(a: string, b: string)
    requires MissingKeyMessage(a) == MissingKeyMessage(b)
    ensures a == b
  {
    assert MissingKeyMessage(a)[22..] == a && MissingKeyMessage(b)[22..] == b;
  }

  /** The message for a required key is reported exactly when the dict lacks that key. */
  lemma MissingKeyReported(d: SessionData, key: string)
    requires key in RequiredKeys
    ensures MissingKeyMessage(key) in ValidationErrors(d) <==> !HasKey(d, key)
  {
    var m := MissingKeyMessage(key);
    assert m[0] == 'M';
    KeyMessagesOnly(d, m);
    MissingKeyErrorsIff(d, RequiredKeys, m);
    if m in MissingKeyErrors(d, RequiredKeys) {
      var k :| k in RequiredKeys && !HasKey(d, k) && m == MissingKeyMessage(k);
      MissingKeyMessageInjective(k, key);
    }
  }

  /** A dict that lacks a required key is never valid. */
  lemma MissingKeyInvalidates(d: SessionData, key: string)
    requires key in RequiredKeys && !HasKey(d, key)
    ensures ValidationErrors(d) != []
  {
    MissingKeyReported(d, key);
  }

  lemma {:induction false} GoalTextErrorReported(xs: seq<Entry>, i: nat)
    requires i < |xs| && !TruthyStr(xs[i].goal.Raw())
    ensures "Goal " + Digits(i) + " missing goal text" in GoalErrors(xs)
    decreases |xs|
  {
    if i < |xs| - 1 {
      assert xs[..|xs| - 1][i] == xs[i];
      GoalTextErrorReported(xs[..|xs| - 1], i);
    }
  }

  /** Each goal whose text is absent, null or empty gets its own error. */
  lemma GoalWithoutTextReported(d: SessionData, i: nat)
    requires d.goals.Some? && i < |d.goals.value| && !TruthyStr(d.goals.value[i].goal.Raw())
    ensures "Goal " + Digits(i) + " missing goal text" in ValidationErrors(d)
  {
    GoalTextErrorReported(d.goals.value, i);
  }

  // ---------------------------------------------------------------------------------------
  // Grouping by member
  // ---------------------------------------------------------------------------------------

  /** `member_id and member_id == k`: the entry names member `k`, which is truthy. */
  predicate Owns(e: Entry, k: int) {
    k != 0 && e.matchedMemberId.Raw() == Some(k)
  }

  /** The group of one member: its (last) attendance entry and its other extractions. */
  datatype MemberGroup = MemberGroup(
    attendance: Option<Entry>,
    goals: seq<Entry>,
    challenges: seq<Entry>,
    marketing: seq<Entry>,
    stucks: seq<Entry>)
  {
    function List(c: Category): seq<Entry> {
      match c
      case Goals => goals
      case Challenges => challenges
      case Marketing => marketing
      case Stucks => stucks
    }

    function With(c: Category, l: seq<Entry>): (g: MemberGroup)
      ensures g.List(c) == l
    {
      match c
      case Goals => this.(goals := l)
      case Challenges => this.(challenges := l)
      case Marketing => this.(marketing := l)
      case Stucks => this.(stucks := l)
    }
  }

  datatype Category = Goals | Challenges | Marketing | Stucks

  /** The truthy member ids of the attendance list. */
  function Ids(xs: seq<Entry>): set<int> {
    if xs == [] then {}
    else
      var e := xs[|xs| - 1];
      Ids(xs[..|xs| - 1]) +
      (if e.matchedMemberId.Val? && e.matchedMemberId.value != 0 then {e.matchedMemberId.value} else {})
  }

  /** The last entry of `xs` that names `k`. */
  function LastOf(xs: seq<Entry>, k: int): Option<Entry> {
    if xs == [] then None
    else if Owns(xs[|xs| - 1], k) then Some(xs[|xs| - 1])
    else LastOf(xs[..|xs| - 1], k)
  }

  function OwnedBy(k: int): Entry -> Option<Entry> {
    e => if Owns(e, k) then Some(e) else None
  }

  /** The entries of `xs` that name `k`, in input order. */
  function ItemsOf(xs: seq<Entry>, k: int): seq<Entry> {
    FilterMap(xs, OwnedBy(k))
  }

  /** The grouping the function returns, stated per member. */
  function GroupOf(d: SessionData, k: int): MemberGroup {
    MemberGroup(
      LastOf(d.attendance.GetOr([]), k),
      ItemsOf(d.goals.GetOr([]), k),
      ItemsOf(d.challenges.GetOr([]), k),
      ItemsOf(d.marketingActivities.GetOr([]), k),
      ItemsOf(d.stucks.GetOr([]), k))
  }

  /** `g` with `ys` appended to its list `c`. */
  function Appended(g: MemberGroup, c: Category, ys: seq<Entry>): MemberGroup {
    g.With(c, g.List(c) + ys)
  }

  /** Appends each entry of `xs` that names a grouped member to that member's list `c`. */
  method AppendToGroups(groups: map<int, MemberGroup>, xs: seq<Entry>, c: Category) returns (r: map<int, MemberGroup>)
    ensures r.Keys == groups.Keys
    ensures forall k :: k in r ==> r[k] == groups[k].With(c, groups[k].List(c) + ItemsOf(xs, k))
  {
    r := groups;
    for i := 0 to |xs|
      invariant r.Keys == groups.Keys
      invariant forall k :: k in r ==> r[k] == Appended(groups[k], c, ItemsOf(xs[..i], k))
    {
      ghost var prev := r;
      r := AppendOne(r, xs[i], c);
      forall k | k in r
        ensures r[k] == Appended(groups[k], c, ItemsOf(xs[..i + 1], k))
      {
        ItemsOfStep(xs, i, k);
        if Owns(xs[i], k) {
          AppendedStep(groups[k], c, ItemsOf(xs[..i], k), xs[i]);
        }
      }
    }
    assert xs[..|xs|] == xs;
  }

  /** The loop body: the entry goes to the list `c` of the grouped member it names, if any. */
  method AppendOne(groups: map<int, MemberGroup>, e: Entry, c: Category) returns (r: map<int, MemberGroup>)
    ensures r.Keys == groups.Keys
    ensures forall k :: k in r ==> r[k] == if Owns(e, k) then Appended(groups[k], c, [e]) else groups[k]
  {
    r := groups;
    var memberId := e.matchedMemberId.Raw();
    if TruthyInt(memberId) && memberId.value in r {
      var m := memberId.value;
      r := r[m := r[m].With(c, r[m].List(c) + [e])];
    }
  }

  /** Extending the input by one entry extends a member's list by that entry when it names
      the member. */
  lemma ItemsOfStep(xs: seq<Entry>, i: nat, k: int)
    requires i < |xs|
    ensures ItemsOf(xs[..i + 1], k) == ItemsOf(xs[..i], k) + (if Owns(xs[i], k) then [xs[i]] else [])
  {
    assert xs[..i + 1][..i] == xs[..i];
  }

  lemma AppendedStep(g: MemberGroup, c: Category, ys: seq<Entry>, e: Entry)
    ensures var h := Appended(g, c, ys); h.With(c, h.List(c) + [e]) == Appended(g, c, ys + [e])
  {
    assert g.List(c) + ys + [e] == g.List(c) + (ys + [e]);
  }

  method GroupExtractionsByMember(d: SessionData) returns (groups: map<int, MemberGroup>)
    ensures groups.Keys == Ids(d.attendance.GetOr([]))
    ensures forall k :: k in groups ==> groups[k] == GroupOf(d, k)
  {
    groups := GroupAttendance(d.attendance.GetOr([]));
    groups := AppendToGroups(groups, d.goals.GetOr([]), Goals);
    groups := AppendToGroups(groups, d.challenges.GetOr([]), Challenges);
    groups := AppendToGroups(groups, d.marketingActivities.GetOr([]), Marketing);
    groups := AppendToGroups(groups, d.stucks.GetOr([]), Stucks);
  }

  /** The first loop: one group per truthy member id of the attendance list, holding the
      last attendance entry naming it. */
  method GroupAttendance(attendance: seq<Entry>) returns (groups: map<int, MemberGroup>)
    ensures groups.Keys == Ids(attendance)
    ensures forall k :: k in groups ==> groups[k] == MemberGroup(LastOf(attendance, k), [], [], [], [])
  {
    groups := map[];
    for i := 0 to |attendance|
      invariant groups.Keys == Ids(attendance[..i])
      invariant forall k :: k in groups ==> groups[k] == MemberGroup(LastOf(attendance[..i], k), [], [], [], [])
    {
      assert attendance[..i + 1][..i] == attendance[..i];
      var memberId := attendance[i].matchedMemberId.Raw();
      if TruthyInt(memberId) {
        var m := memberId.value;
        if m !in groups {
          groups := groups[m := MemberGroup(None, [], [], [], [])];
        }
        groups := groups[m := groups[m].(attendance := Some(attendance[i]))];
      }
    }
    assert attendance[..|attendance|] == attendance;
  }

  /** The grouped members are exactly the truthy ids of the attendance list. */
  lemma {:induction false} IdsIff(xs: seq<Entry>, k: int)
    ensures k in Ids(xs) <==> exists i :: 0 <= i < |xs| && Owns(xs[i], k)
    decreases |xs|
  {
    if xs != [] {
      var init := xs[..|xs| - 1];
      IdsIff(init, k);
      if exists i :: 0 <= i < |xs| && Owns(xs[i], k) {
        var i :| 0 <= i < |xs| && Owns(xs[i], k);
        if i < |init| {
          assert init[i] == xs[i];
        }
      }
      if exists i :: 0 <= i < |init| && Owns(init[i], k) {
        var i :| 0 <= i < |init| && Owns(init[i], k);
        assert xs[i] == init[i];
      }
    }
  }

  /** A grouped member's attendance is its last attendance entry: later entries overwrite. */
  lemma {:induction false} LastOfIsLast(xs: seq<Entry>, k: int)
    requires k in Ids(xs)
    ensures exists j ::
      && 0 <= j < |xs| && Owns(xs[j], k) && LastOf(xs, k) == Some(xs[j])
      && forall j' :: j < j' < |xs| ==> !Owns(xs[j'], k)
    decreases |xs|
  {
    var init := xs[..|xs| - 1];
    if Owns(xs[|xs| - 1], k) {
      assert LastOf(xs, k) == Some(xs[|xs| - 1]);
    } else {
      assert k in Ids(init);
      LastOfIsLast(init, k);
      var j :| 0 <= j < |init| && Owns(init[j], k) && LastOf(init, k) == Some(init[j]) &&
        forall j' :: j < j' < |init| ==> !Owns(init[j'], k);
      assert xs[j] == init[j];
      assert forall j' :: j < j' < |xs| - 1 ==> xs[j'] == init[j'];
    }
  }

  /** A member's list holds exactly the entries that name it, in input order. */
  lemma ItemsOfIff(xs: seq<Entry>, k: int, e: Entry)
    ensures e in ItemsOf(xs, k) <==> e in xs && Owns(e, k)
  {
    if e in ItemsOf(xs, k) {
      var n :| 0 <= n < |ItemsOf(xs, k)| && ItemsOf(xs, k)[n] == e;
      FilterMapSound(xs, OwnedBy(k), n);
    }
    if e in xs && Owns(e, k) {
      var i :| 0 <= i < |xs| && xs[i] == e;
      FilterMapComplete(xs, OwnedBy(k), i);
    }
  }

  lemma ItemsOfAppend(xs: seq<Entry>, ys: seq<Entry>, k: int)
    ensures ItemsOf(xs + ys, k) == ItemsOf(xs, k) + ItemsOf(ys, k)
  {
    FilterMapAppend(xs, ys, OwnedBy(k));
  }
}
