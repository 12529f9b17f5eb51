/** Fuzzy resolution of names extracted from a transcript to the members of a group
    roster (`utils/name_matching.py`). The library scorer is a parameter: any function
    from (query, candidate) to a real score. */
module NameMatching {
  import opened Values
  import Constants

  /** A roster member, as far as matching needs it. */
  datatype Member = Member(id: int, name: string, email: Option<string>)

  /** The library scorer `token_sort_ratio`. */
  type Scorer = (string, string) -> real

  /** The scorer keeps to its documented range 0..100. */
  ghost predicate Bounded(score: Scorer) {
    forall a, b :: 0.0 <= score(a, b) <= 100.0
  }

  /** Python's `int(x)` on a non-negative float. */
  function Truncate(x: real): (n: int)
    requires x >= 0.0
    ensures n >= 0 && n as real <= x < n as real + 1.0
  {
    x.Floor
  }

  /** Truncating a score never moves it across the (integral) threshold. */
  lemma TruncateThreshold(x: real)
    requires x >= 0.0
    ensures Truncate(x) >= Constants.MatchThreshold <==> x >= Constants.MatchThreshold as real
  {
  }

  /** `[m.name for m in members]`. */
  function NamesOf(members: seq<Member>): (r: seq<string>)
    ensures |r| == |members|
    ensures forall i :: 0 <= i < |members| ==> r[i] == members[i].name
  {
    seq(|members|, i requires 0 <= i < |members| => members[i].name)
  }

  /** `process.extractOne`: the index of the first highest-scoring candidate. */
  function BestIndex(query: string, names: seq<string>, score: Scorer): (k: nat)
    requires names != []
    ensures k < |names|
    ensures forall j :: 0 <= j < |names| ==> score(query, names[j]) <= score(query, names[k])
    ensures forall j :: 0 <= j < k ==> score(query, names[j]) < score(query, names[k])
    decreases |names|
  {
    if |names| == 1 then 0
    else
      var k := BestIndex(query, names[..|names| - 1], score);
      if score(query, names[|names| - 1]) > score(query, names[k]) then |names| - 1 else k
  }

  /** `next(m for m in members if m.name == name)`: the first member carrying `name`. */
  function FirstNamed(members: seq<Member>, name: string): (i: nat)
    requires exists j :: 0 <= j < |members| && members[j].name == name
    ensures i < |members| && members[i].name == name
    ensures forall j :: 0 <= j < i ==> members[j].name != name
  {
    if members[0].name == name then 0
    else
      assert exists j :: 0 <= j < |members[1..]| && members[1..][j].name == name by {
        var j :| 0 <= j < |members| && members[j].name == name;
        assert members[1..][j - 1] == members[j];
      }
      1 + FirstNamed(members[1..], name)
  }

  /** The pair `(matched_member, confidence)`. */
  datatype Match = Match(member: Option<Member>, confidence: int)

  /** `match_name_to_member`: the confidence is the truncated best score; a member is returned
      when that score reaches the threshold, and it is the first member scoring best. */
  function MatchName(extracted: string, members: seq<Member>, score: Scorer): (m: Match)
    requires Bounded(score)
    ensures extracted == "" || members == [] ==> m == Match(None, 0)
    ensures extracted != "" && members != [] ==>
      (exists j :: 0 <= j < |members| && m.confidence == Truncate(score(extracted, members[j].name))) &&
      (forall j :: 0 <= j < |members| ==> Truncate(score(extracted, members[j].name)) <= m.confidence)
    ensures m.member.Some? <==>
      extracted != "" && exists j :: 0 <= j < |members| && score(extracted, members[j].name) >= Constants.MatchThreshold as real
    ensures m.member.Some? ==>
      m.confidence >= Constants.MatchThreshold &&
      exists i :: 0 <= i < |members| && members[i] == m.member.value &&
        (forall j :: 0 <= j < i ==> members[j].name != members[i].name) &&
        (forall j :: 0 <= j < i ==> score(extracted, members[j].name) < score(extracted, members[i].name)) &&
        (forall j :: 0 <= j < |members| ==> score(extracted, members[j].name) <= score(extracted, members[i].name))
  {
    if extracted == "" || members == [] then Match(None, 0)
    else
      var names := NamesOf(members);
      var k := BestIndex(extracted, names, score);
      var s := score(extracted, names[k]);
      if s >= Constants.MatchThreshold as real then
        var i := FirstNamed(members, names[k]);
        FirstOfBest(extracted, members, score, names, k, i);
        Match(Some(members[i]), Truncate(s))
      else
        Match(None, Truncate(s))
  }

  /** The first member carrying the best-scoring name is the first member scoring best. */
  lemma FirstOfBest(extracted: string, members: seq<Member>, score: Scorer, names: seq<string>, k: nat, i: nat)
    requires names == NamesOf(members) && members != [] && k == BestIndex(extracted, names, score)
    requires i == FirstNamed(members, names[k])
    ensures members[i].name == names[k]
    ensures forall j :: 0 <= j < i ==> members[j].name != members[i].name
    ensures forall j :: 0 <= j < i ==> score(extracted, members[j].name) < score(extracted, members[i].name)
    ensures forall j :: 0 <= j < |members| ==> score(extracted, members[j].name) <= score(extracted, members[i].name)
  {
    assert i <= k by { assert members[k].name == names[k]; }
    forall j | 0 <= j < |members|
      ensures score(extracted, members[j].name) <= score(extracted, members[i].name)
      ensures j < i ==> score(extracted, members[j].name) < score(extracted, members[i].name)
    {
      assert members[j].name == names[j];
    }
  }

  /** The confidence always lies in 0..100. */
  lemma ConfidenceRange(extracted: string, members: seq<Member>, score: Scorer)
    requires Bounded(score)
    ensures 0 <= MatchName(extracted, members, score).confidence <= 100
  {
    if extracted != "" && members != [] {
      var names := NamesOf(members);
      var k := BestIndex(extracted, names, score);
      assert 0.0 <= score(extracted, names[k]) <= 100.0;
    }
  }

  /** `confidence < MATCH_THRESHOLD or member is None` is the same test as `member is None`. */
  lemma ReviewIffUnmatched(extracted: string, members: seq<Member>, score: Scorer)
    requires Bounded(score)
    ensures var m := MatchName(extracted, members, score);
      (m.confidence < Constants.MatchThreshold || m.member.None?) <==> m.member.None?
  {
  }

  /** Of members sharing a name, only the first of them can be returned: a later namesake
      that differs from it never is. */
  lemma LaterNamesakeNeverMatched(extracted: string, members: seq<Member>, score: Scorer, i: nat, j: nat)
    requires Bounded(score)
    requires i < j < |members| && members[i].name == members[j].name && members[i] != members[j]
    requires forall l :: 0 <= l < i ==> members[l].name != members[i].name
    ensures MatchName(extracted, members, score).member != Some(members[j])
  {
    var m := MatchName(extracted, members, score);
    if m.member == Some(members[j]) {
      var k: nat :| k < |members| && members[k] == members[j] &&
        (forall l :: 0 <= l < k ==> members[l].name != members[k].name);
      FirstOfName(members, i, k);
    }
  }

  lemma FirstOfName(members: seq<Member>, i: nat, k: nat)
    requires i < |members| && k < |members| && members[i].name == members[k].name
    requires forall l :: 0 <= l < i ==> members[l].name != members[i].name
    requires forall l :: 0 <= l < k ==> members[l].name != members[k].name
    ensures i == k
  {
  }

  /** A member whose name scores the maximum 100 is matched, with confidence 100. */
  lemma PerfectScoreMatches(extracted: string, members: seq<Member>, score: Scorer, i: nat)
    requires Bounded(score)
    requires extracted != "" && i < |members| && score(extracted, members[i].name) == 100.0
    ensures MatchName(extracted, members, score).member.Some?
    ensures MatchName(extracted, members, score).confidence == 100
  {
    var m := MatchName(extracted, members, score);
    ConfidenceRange(extracted, members, score);
    assert Truncate(score(extracted, members[i].name)) == 100;
  }

  // ---------------------------------------------------------------- per-record matching

  /** One entry of `attendance_data['attendance']`. */
  datatype AttendanceExtract = AttendanceExtract(name: Field<string>, status: Field<string>, notes: Field<string>)

  /** One record of the result of `match_attendance_to_members`. */
  datatype AttendanceMatch = AttendanceMatch(
    extractedName: Option<string>,
    matchedMemberId: Option<int>,
    matchedMemberName: Option<string>,
    matchedMemberEmail: Option<string>,
    confidence: int,
    status: Option<string>,
    notes: Option<string>,
    needsManualReview: bool)

  /** `str` truthiness of an optional name: a null name is matched like the empty one. */
  function NameText(o: Option<string>): string {
    o.GetOr("")
  }

  /** The body of the loop in `match_attendance_to_members`, for one record. */
  function MatchAttendanceRecord(record: AttendanceExtract, members: seq<Member>, score: Scorer): AttendanceMatch
    requires Bounded(score)
  {
    var name := record.name.Get(Some(""));
    var m := MatchName(NameText(name), members, score);
    AttendanceMatch(
      name,
      if m.member.Some? then Some(m.member.value.id) else None,
      if m.member.Some? then Some(m.member.value.name) else None,
      if m.member.Some? then m.member.value.email else None,
      m.confidence,
      record.status.Get(Some("present")),
      record.notes.Get(Some("")),
      m.confidence < Constants.MatchThreshold || m.member.None?)
  }

  /** What one attendance result says: the defaults for a missing name, status or notes; a
      matched id, name and email taken together from one roster member, or none of them;
      manual review exactly when unmatched; a confidence between 0 and 100. */
  lemma AttendanceRecordMatched(record: AttendanceExtract, members: seq<Member>, score: Scorer)
    requires Bounded(score)
    ensures var r := MatchAttendanceRecord(record, members, score);
      && r.extractedName == record.name.Get(Some(""))
      && r.status == record.status.Get(Some("present")) && r.notes == record.notes.Get(Some(""))
      && (r.needsManualReview <==> r.matchedMemberId.None?)
      && (r.matchedMemberId.Some? ==>
            exists i :: 0 <= i < |members| && r.matchedMemberId == Some(members[i].id) &&
              r.matchedMemberName == Some(members[i].name) && r.matchedMemberEmail == members[i].email)
      && (r.matchedMemberId.None? ==> r.matchedMemberName.None? && r.matchedMemberEmail.None?)
      && 0 <= r.confidence <= 100
  {
    ConfidenceRange(NameText(record.name.Get(Some(""))), members, score);
  }

  /** The results of the loop, one per record in order. */
  function AttendanceMatches(records: seq<AttendanceExtract>, members: seq<Member>, score: Scorer): (r: seq<AttendanceMatch>)
    requires Bounded(score)
    ensures |r| == |records|
  {
    if records == [] then []
    else AttendanceMatches(records[..|records| - 1], members, score) + [MatchAttendanceRecord(records[|records| - 1], members, score)]
  }

  lemma {:induction false} AttendanceMatchesAt(records: seq<AttendanceExtract>, members: seq<Member>, score: Scorer, i: nat)
    requires Bounded(score) && i < |records|
    ensures AttendanceMatches(records, members, score)[i] == MatchAttendanceRecord(records[i], members, score)
    decreases |records|
  {
    if i < |records| - 1 {
      AttendanceMatchesAt(records[..|records| - 1], members, score, i);
    }
  }

  /** Entry by entry, the matches are the per-record matches. */
  lemma AttendanceMatchesAll(records: seq<AttendanceExtract>, members: seq<Member>, score: Scorer)
    requires Bounded(score)
    ensures forall i :: 0 <= i < |records| ==>
      AttendanceMatches(records, members, score)[i] == MatchAttendanceRecord(records[i], members, score)
  {
    forall i | 0 <= i < |records|
      ensures AttendanceMatches(records, members, score)[i] == MatchAttendanceRecord(records[i], members, score)
    {
      AttendanceMatchesAt(records, members, score, i);
    }
  }

  /** `match_attendance_to_members`; `attendance` is the `'attendance'` key, `None` when absent. */
  method MatchAttendanceToMembers(attendance: Option<seq<AttendanceExtract>>, members: seq<Member>, score: Scorer)
    returns (out: seq<AttendanceMatch>)
    requires Bounded(score)
    ensures var records := attendance.GetOr([]);
      |out| == |records| && forall i :: 0 <= i < |records| ==> out[i] == MatchAttendanceRecord(records[i], members, score)
  {
    var records := attendance.GetOr([]);
    out := [];
    for i := 0 to |records|
      invariant out == AttendanceMatches(records[..i], members, score)
    {
      assert records[..i + 1][..i] == records[..i];
      out := out + [MatchAttendanceRecord(records[i], members, score)];
    }
    assert records[..|records|] == records;
    AttendanceMatchesAll(records, members, score);
  }

  /** One entry of `goals_data['goals']`. */
  datatype GoalExtract = GoalExtract(name: Field<string>, quantifiableGoal: Field<string>, isVague: Field<bool>)

  /** One record of the result of `match_goals_to_members`. */
  datatype GoalMatch = GoalMatch(
    extractedName: Option<string>,
    matchedMemberId: Option<int>,
    matchedMemberName: Option<string>,
    confidence: int,
    goal: Option<string>,
    isVague: Option<bool>,
    needsManualReview: bool)

  /** The body of the loop in `match_goals_to_members`, for one goal. */
  function MatchGoalRecord(goal: GoalExtract, members: seq<Member>, score: Scorer): GoalMatch
    requires Bounded(score)
  {
    var name := goal.name.Get(Some(""));
    var text := goal.quantifiableGoal.Get(Some(""));
    var m := MatchName(NameText(name), members, score);
    GoalMatch(
      name,
      if m.member.Some? then Some(m.member.value.id) else None,
      if m.member.Some? then Some(m.member.value.name) else None,
      m.confidence,
      text,
      goal.isVague.Get(Some(false)),
      m.confidence < Constants.MatchThreshold || m.member.None? || !TruthyStr(text))
  }

  /** What one goal result says: the defaults for a missing name, goal text or vagueness;
      manual review exactly when unmatched or the goal text is falsy; a matched id and name
      taken together from one roster member; a confidence between 0 and 100. */
  lemma GoalRecordMatched(goal: GoalExtract, members: seq<Member>, score: Scorer)
    requires Bounded(score)
    ensures var r := MatchGoalRecord(goal, members, score);
      && r.extractedName == goal.name.Get(Some(""))
      && r.goal == goal.quantifiableGoal.Get(Some("")) && r.isVague == goal.isVague.Get(Some(false))
      && (r.needsManualReview <==> r.matchedMemberId.None? || !TruthyStr(r.goal))
      && (r.matchedMemberId.Some? ==>
            exists i :: 0 <= i < |members| && r.matchedMemberId == Some(members[i].id) && r.matchedMemberName == Some(members[i].name))
      && (r.matchedMemberId.None? ==> r.matchedMemberName.None?)
      && 0 <= r.confidence <= 100
  {
    ConfidenceRange(NameText(goal.name.Get(Some(""))), members, score);
  }

  /** The results of the loop, one per record in order. */
  function GoalMatches(records: seq<GoalExtract>, members: seq<Member>, score: Scorer): (r: seq<GoalMatch>)
    requires Bounded(score)
    ensures |r| == |records|
  {
    if records == [] then []
    else GoalMatches(records[..|records| - 1], members, score) + [MatchGoalRecord(records[|records| - 1], members, score)]
  }

  lemma {:induction false} GoalMatchesAt(records: seq<GoalExtract>, members: seq<Member>, score: Scorer, i: nat)
    requires Bounded(score) && i < |records|
    ensures GoalMatches(records, members, score)[i] == MatchGoalRecord(records[i], members, score)
    decreases |records|
  {
    if i < |records| - 1 {
      GoalMatchesAt(records[..|records| - 1], members, score, i);
    }
  }

  /** `match_goals_to_members`; `goals` is the `'goals'` key, `None` when absent. */
  method MatchGoalsToMembers(goals: Option<seq<GoalExtract>>, members: seq<Member>, score: Scorer)
    returns (out: seq<GoalMatch>)
    requires Bounded(score)
    ensures var records := goals.GetOr([]);
      |out| == |records| && forall i :: 0 <= i < |records| ==> out[i] == MatchGoalRecord(records[i], members, score)
  {
    var records := goals.GetOr([]);
    out := [];
    for i := 0 to |records|
      invariant out == GoalMatches(records[..i], members, score)
    {
      assert records[..i + 1][..i] == records[..i];
      out := out + [MatchGoalRecord(records[i], members, score)];
    }
    assert records[..|records|] == records;
    forall i | 0 <= i < |records| ensures out[i] == MatchGoalRecord(records[i], members, score) {
      GoalMatchesAt(records, members, score, i);
    }
  }

  /** `batch_match_names_to_members`: every extracted name maps to its own match. */
  method BatchMatchNames(names: seq<string>, members: seq<Member>, score: Scorer)
    returns (matches: map<string, Match>)
    requires Bounded(score)
    ensures matches.Keys == set n | n in names
    ensures forall n :: n in matches ==> matches[n] == MatchName(n, members, score)
  {
    matches := map[];
    for i := 0 to |names|
      invariant matches.Keys == set n | n in names[..i]
      invariant forall n :: n in matches ==> matches[n] == MatchName(n, members, score)
    {
      matches := matches[names[i] := MatchName(names[i], members, score)];
      assert names[..i + 1] == names[..i] + [names[i]];
    }
    assert names[..|names|] == names;
  }

  // ---------------------------------------------------------------- suggestions

  /** Candidate `i` ranks before candidate `j`: a higher score, or the same score and an
      earlier roster position. */
  predicate Before(query: string, names: seq<string>, score: Scorer, i: nat, j: nat)
    requires i < |names| && j < |names|
  {
    score(query, names[i]) > score(query, names[j]) || (score(query, names[i]) == score(query, names[j]) && i < j)
  }

  predicate RankedBy(query: string, names: seq<string>, score: Scorer, r: seq<nat>) {
    (forall k :: 0 <= k < |r| ==> r[k] < |names|) &&
    forall k, l :: 0 <= k < l < |r| ==> Before(query, names, score, r[k], r[l])
  }

  /** Inserts candidate `i` into a ranking. */
  function Insert(query: string, names: seq<string>, score: Scorer, i: nat, r: seq<nat>): (t: seq<nat>)
    requires i < |names| && RankedBy(query, names, score, r) && i !in r
    ensures multiset(t) == multiset(r) + multiset{i}
    ensures RankedBy(query, names, score, t)
  {
    if r == [] then [i]
    else if Before(query, names, score, i, r[0]) then
      BeforeHeadBeforeAll(query, names, score, i, r);
      ConsRanked(query, names, score, i, r);
      [i] + r
    else
      var t := Insert(query, names, score, i, r[1..]);
      assert r == [r[0]] + r[1..];
      HeadBeforeInserted(query, names, score, i, r, t);
      ConsRanked(query, names, score, r[0], t);
      [r[0]] + t
  }

  /** A candidate ranking before every candidate of a ranking can head it. */
  lemma ConsRanked(query: string, names: seq<string>, score: Scorer, x: nat, t: seq<nat>)
    requires x < |names| && RankedBy(query, names, score, t)
    requires forall k :: 0 <= k < |t| ==> t[k] < |names| && Before(query, names, score, x, t[k])
    ensures RankedBy(query, names, score, [x] + t)
  {
    forall k, l | 0 <= k < l < |t| + 1
      ensures Before(query, names, score, ([x] + t)[k], ([x] + t)[l])
    {
      assert ([x] + t)[l] == t[l - 1];
      if k > 0 { assert ([x] + t)[k] == t[k - 1]; }
    }
  }

  /** `Before` is transitive, so ranking before the head is ranking before everyone. */
  lemma BeforeHeadBeforeAll(query: string, names: seq<string>, score: Scorer, i: nat, r: seq<nat>)
    requires i < |names| && RankedBy(query, names, score, r)
    requires r != [] && Before(query, names, score, i, r[0])
    ensures forall k :: 0 <= k < |r| ==> Before(query, names, score, i, r[k])
  {
    forall k | 1 <= k < |r| ensures Before(query, names, score, i, r[k]) {
      assert Before(query, names, score, r[0], r[k]);
    }
  }

  /** When `i` does not rank before the head of `r`, the head ranks before every candidate
      of `r`'s tail with `i` inserted. */
  lemma HeadBeforeInserted(query: string, names: seq<string>, score: Scorer, i: nat, r: seq<nat>, t: seq<nat>)
    requires i < |names| && RankedBy(query, names, score, r) && i !in r
    requires r != [] && !Before(query, names, score, i, r[0])
    requires multiset(t) == multiset(r[1..]) + multiset{i}
    ensures forall k :: 0 <= k < |t| ==> t[k] < |names| && Before(query, names, score, r[0], t[k])
  {
    assert r[0] != i by { assert r[0] in r; }
    forall k | 0 <= k < |t| ensures t[k] < |names| && Before(query, names, score, r[0], t[k]) {
      assert t[k] in multiset(r[1..]) + multiset{i};
      if t[k] != i {
        var m :| 0 <= m < |r[1..]| && r[1..][m] == t[k];
        assert r[m + 1] == t[k];
      }
    }
  }

  /** The candidate positions `0..n`, ordered by descending score with ties in roster
      order, as `process.extract` returns them. */
  function Ranking(query: string, names: seq<string>, score: Scorer, n: nat): (r: seq<nat>)
    requires n <= |names|
    ensures multiset(r) == multiset(Range(n))
    ensures RankedBy(query, names, score, r)
  {
    if n == 0 then []
    else
      var r := Ranking(query, names, score, n - 1);
      assert n - 1 !in multiset(Range(n - 1));
      assert Range(n) == Range(n - 1) + [n - 1];
      Insert(query, names, score, n - 1, r)
  }

  function Range(n: nat): (r: seq<nat>)
    ensures |r| == n && forall k :: 0 <= k < n ==> r[k] == k
  {
    if n == 0 then [] else Range(n - 1) + [n - 1]
  }

  /** `process.extract(..., limit=top_n)`: the first `top_n` candidates of the ranking, so every
      candidate left out ranks after every candidate returned. */
  function TopN(query: string, names: seq<string>, score: Scorer, topN: int): (r: seq<nat>)
    ensures |r| == if topN <= 0 then 0 else if topN < |names| then topN else |names|
    ensures forall k :: 0 <= k < |r| ==> r[k] < |names|
    ensures forall k, l :: 0 <= k < l < |r| ==> Before(query, names, score, r[k], r[l])
    ensures forall k, j :: 0 <= k < |r| && 0 <= j < |names| && j !in r ==> Before(query, names, score, r[k], j)
  {
    var all := Ranking(query, names, score, |names|);
    assert |all| == |names| by { assert |multiset(all)| == |multiset(Range(|names|))|; }
    var n := if topN <= 0 then 0 else if topN < |all| then topN else |all|;
    RankedPrefixFirst(query, names, score, all, n);
    all[..n]
  }

  /** In a complete ranking, every candidate outside a prefix ranks after every candidate in it. */
  lemma RankedPrefixFirst(query: string, names: seq<string>, score: Scorer, all: seq<nat>, n: nat)
    requires RankedBy(query, names, score, all) && multiset(all) == multiset(Range(|names|))
    requires n <= |all|
    ensures forall k, j :: 0 <= k < n && 0 <= j < |names| && j !in all[..n] ==> Before(query, names, score, all[k], j)
  {
    forall k, j | 0 <= k < n && 0 <= j < |names| && j !in all[..n]
      ensures Before(query, names, score, all[k], j)
    {
      assert j in multiset(Range(|names|)) by { assert Range(|names|)[j] == j; }
      var p :| 0 <= p < |all| && all[p] == j;
    }
  }

  /** The pairs `r` stand for the roster positions `p`, as `process.extract` returns them: one
      position per pair, carrying the pair's name, the positions in ranking order (so no position
      twice), and every position left out ranking after every position kept. */
  ghost predicate RankedPositions(extracted: string, members: seq<Member>, score: Scorer,
                                  r: seq<(Member, int)>, p: seq<nat>)
  {
    && |p| == |r|
    && (forall k :: 0 <= k < |p| ==> p[k] < |members| && r[k].0.name == members[p[k]].name)
    && (forall k, l :: 0 <= k < l < |p| ==> Before(extracted, NamesOf(members), score, p[k], p[l]))
    && (forall k, j :: 0 <= k < |p| && 0 <= j < |members| && j !in p ==>
          Before(extracted, NamesOf(members), score, p[k], j))
  }

  /** What `get_match_suggestions` promises of its pairs: they stand for the top-ranked roster
      positions, in ranking order; each member is the first roster member carrying its name and
      comes with that name's truncated score, in 0..100; the pairs come by descending score; and
      no roster member whose name is left out scores above the last pair. */
  ghost predicate ProperSuggestions(extracted: string, members: seq<Member>, score: Scorer, r: seq<(Member, int)>)
    requires Bounded(score)
  {
    && (exists p :: RankedPositions(extracted, members, score, r, p))
    && (forall k :: 0 <= k < |r| ==> r[k].0 in members && 0 <= r[k].1 <= 100)
    && (forall k :: 0 <= k < |r| ==> r[k].1 == Truncate(score(extracted, r[k].0.name)))
    && (forall k :: 0 <= k < |r| ==> r[k].0 == members[FirstNamed(members, r[k].0.name)])
    && (forall k, l :: 0 <= k < l < |r| ==> score(extracted, r[k].0.name) >= score(extracted, r[l].0.name))
    && (forall k, l :: 0 <= k < l < |r| ==> r[k].1 >= r[l].1)
    && (r != [] ==> forall j :: 0 <= j < |members| && (forall k :: 0 <= k < |r| ==> r[k].0.name != members[j].name) ==>
          score(extracted, members[j].name) <= score(extracted, r[|r| - 1].0.name))
  }

  /** `get_match_suggestions`: up to `top_n` pairs of a member and its truncated score, the
      best-ranked names of the roster. */
  function MatchSuggestions(extracted: string, members: seq<Member>, score: Scorer, topN: int): (r: seq<(Member, int)>)
    requires Bounded(score)
    ensures extracted == "" || members == [] ==> r == []
    ensures extracted != "" ==> |r| == if topN <= 0 then 0 else if topN < |members| then topN else |members|
    ensures ProperSuggestions(extracted, members, score, r)
  {
    if extracted == "" || members == [] then
      assert RankedPositions(extracted, members, score, [], []);
      []
    else
      var names := NamesOf(members);
      var top := TopN(extracted, names, score, topN);
      var r := Suggestions(extracted, members, score, names, top);
      SuggestionsOfTop(extracted, members, score, names, top, r);
      r
  }

  /** The loop over the results of `process.extract`: each ranked position becomes the first
      member with its name and the truncated score. */
  function Suggestions(extracted: string, members: seq<Member>, score: Scorer, names: seq<string>,
                       top: seq<nat>): (r: seq<(Member, int)>)
    requires Bounded(score) && names == NamesOf(members)
    requires forall k :: 0 <= k < |top| ==> top[k] < |names|
    ensures |r| == |top|
    ensures forall k :: 0 <= k < |top| ==>
      r[k] == (members[FirstNamed(members, names[top[k]])], Truncate(score(extracted, names[top[k]])))
  {
    if top == [] then []
    else
      assert members[top[0]].name == names[top[0]];
      [(members[FirstNamed(members, names[top[0]])], Truncate(score(extracted, names[top[0]])))]
        + Suggestions(extracted, members, score, names, top[1..])
  }

  /** What the suggestions built from a top-ranked prefix promise. */
  lemma SuggestionsOfTop(extracted: string, members: seq<Member>, score: Scorer, names: seq<string>, top: seq<nat>,
                         r: seq<(Member, int)>)
    requires Bounded(score) && names == NamesOf(members)
    requires forall k :: 0 <= k < |top| ==> top[k] < |names|
    requires forall k, l :: 0 <= k < l < |top| ==> Before(extracted, names, score, top[k], top[l])
    requires forall k, j :: 0 <= k < |top| && 0 <= j < |names| && j !in top ==> Before(extracted, names, score, top[k], j)
    requires r == Suggestions(extracted, members, score, names, top)
    ensures ProperSuggestions(extracted, members, score, r)
  {
    SuggestedMembers(extracted, members, score, names, top, r);
    SuggestedScores(extracted, members, score, names, top, r);
    SuggestedPositions(extracted, members, score, names, top, r);
    if r != [] {
      SuggestionsLeftOut(extracted, members, score, names, top, r);
    }
  }

  /** The suggestions stand for the top-ranked positions they were built from. */
  lemma SuggestedPositions(extracted: string, members: seq<Member>, score: Scorer, names: seq<string>, top: seq<nat>,
                           r: seq<(Member, int)>)
    requires names == NamesOf(members) && |r| == |top|
    requires forall k :: 0 <= k < |top| ==> top[k] < |names|
    requires forall k, l :: 0 <= k < l < |top| ==> Before(extracted, names, score, top[k], top[l])
    requires forall k, j :: 0 <= k < |top| && 0 <= j < |names| && j !in top ==> Before(extracted, names, score, top[k], j)
    requires forall k :: 0 <= k < |r| ==> r[k].0.name == names[top[k]]
    ensures RankedPositions(extracted, members, score, r, top)
  {
    forall k | 0 <= k < |top| ensures r[k].0.name == members[top[k]].name {
      assert names[top[k]] == members[top[k]].name;
    }
  }

  /** Each suggested member is the first roster member carrying the name at its position. */
  lemma SuggestedMembers(extracted: string, members: seq<Member>, score: Scorer, names: seq<string>, top: seq<nat>,
                         r: seq<(Member, int)>)
    requires Bounded(score) && names == NamesOf(members)
    requires forall k :: 0 <= k < |top| ==> top[k] < |names|
    requires r == Suggestions(extracted, members, score, names, top)
    ensures forall k :: 0 <= k < |r| ==> r[k].0.name == names[top[k]]
    ensures forall k :: 0 <= k < |r| ==> r[k].0 in members && r[k].0 == members[FirstNamed(members, r[k].0.name)]
  {
    forall k | 0 <= k < |r|
      ensures r[k].0.name == names[top[k]]
      ensures r[k].0 in members && r[k].0 == members[FirstNamed(members, r[k].0.name)]
    {
      var i := FirstNamed(members, names[top[k]]);
      assert members[i] == r[k].0;
    }
  }

  /** Each suggested score is the truncated score of its position, in 0..100 and non-increasing. */
  lemma SuggestedScores(extracted: string, members: seq<Member>, score: Scorer, names: seq<string>, top: seq<nat>,
                        r: seq<(Member, int)>)
    requires Bounded(score) && names == NamesOf(members)
    requires forall k :: 0 <= k < |top| ==> top[k] < |names|
    requires forall k, l :: 0 <= k < l < |top| ==> Before(extracted, names, score, top[k], top[l])
    requires r == Suggestions(extracted, members, score, names, top)
    ensures forall k :: 0 <= k < |r| ==> r[k].1 == Truncate(score(extracted, names[top[k]])) && 0 <= r[k].1 <= 100
    ensures forall k, l :: 0 <= k < l < |r| ==> score(extracted, names[top[k]]) >= score(extracted, names[top[l]])
    ensures forall k, l :: 0 <= k < l < |r| ==> r[k].1 >= r[l].1
  {
    forall k | 0 <= k < |r| ensures 0 <= r[k].1 <= 100 {
      assert 0.0 <= score(extracted, names[top[k]]) <= 100.0;
    }
    forall k, l | 0 <= k < l < |r| ensures score(extracted, names[top[k]]) >= score(extracted, names[top[l]]) {
      assert Before(extracted, names, score, top[k], top[l]);
    }
  }

  /** A member whose name is not among the suggestions sits at a position outside the top. */
  lemma SuggestionsLeftOut(extracted: string, members: seq<Member>, score: Scorer, names: seq<string>,
                           top: seq<nat>, r: seq<(Member, int)>)
    requires names == NamesOf(members) && |r| == |top| && top != []
    requires forall k :: 0 <= k < |top| ==> top[k] < |names|
    requires forall k, j :: 0 <= k < |top| && 0 <= j < |names| && j !in top ==> Before(extracted, names, score, top[k], j)
    requires forall k :: 0 <= k < |r| ==> r[k].0.name == names[top[k]]
    ensures forall j :: 0 <= j < |members| && (forall k :: 0 <= k < |r| ==> r[k].0.name != members[j].name) ==>
      score(extracted, members[j].name) <= score(extracted, r[|r| - 1].0.name)
  {
    forall j | 0 <= j < |members| && (forall k :: 0 <= k < |r| ==> r[k].0.name != members[j].name)
      ensures score(extracted, members[j].name) <= score(extracted, r[|r| - 1].0.name)
    {
      LeftOutBelowLast(extracted, members, score, names, top, r, j);
    }
  }

  lemma LeftOutBelowLast(extracted: string, members: seq<Member>, score: Scorer, names: seq<string>,
                         top: seq<nat>, r: seq<(Member, int)>, j: nat)
    requires names == NamesOf(members) && |r| == |top| && top != []
    requires forall k :: 0 <= k < |top| ==> top[k] < |names|
    requires forall k, j :: 0 <= k < |top| && 0 <= j < |names| && j !in top ==> Before(extracted, names, score, top[k], j)
    requires forall k :: 0 <= k < |r| ==> r[k].0.name == names[top[k]]
    requires j < |members| && forall k :: 0 <= k < |r| ==> r[k].0.name != members[j].name
    ensures score(extracted, members[j].name) <= score(extracted, r[|r| - 1].0.name)
  {
    assert names[j] == members[j].name;
    forall k | 0 <= k < |top| ensures top[k] != j {
      assert r[k].0.name == names[top[k]];
    }
    assert j !in top;
    var last := top[|top| - 1];
    assert Before(extracted, names, score, last, j);
    assert r[|r| - 1].0.name == names[last];
  }


  /** The first suggestion reports the same score as the matcher. */
  lemma SuggestionHeadIsBestMatch(extracted: string, members: seq<Member>, score: Scorer, topN: int)
    requires Bounded(score)
    requires extracted != "" && members != [] && topN > 0
    ensures MatchSuggestions(extracted, members, score, topN)[0].1 == MatchName(extracted, members, score).confidence
  {
    var r := MatchSuggestions(extracted, members, score, topN);
    var m := MatchName(extracted, members, score);
    var j :| 0 <= j < |members| && m.confidence == Truncate(score(extracted, members[j].name));
    HeadIsTopScore(extracted, members, score, r, m.confidence, j);
  }

  /** A truncated score reached by some member and bounding every member is the head's. */
  lemma HeadIsTopScore(extracted: string, members: seq<Member>, score: Scorer, r: seq<(Member, int)>,
                       confidence: int, j: nat)
    requires Bounded(score) && ProperSuggestions(extracted, members, score, r)
    requires r != [] && j < |members| && confidence == Truncate(score(extracted, members[j].name))
    requires forall j :: 0 <= j < |members| ==> Truncate(score(extracted, members[j].name)) <= confidence
    ensures r[0].1 == confidence
  {
    HeadScoresBest(extracted, members, score, r, j);
    TruncateMonotone(score(extracted, members[j].name), score(extracted, r[0].0.name));
    var i := FirstNamed(members, r[0].0.name);
    assert members[i] == r[0].0;
  }

  /** On a roster whose names are distinct, no member is suggested twice. */
  lemma SuggestionsDistinct(extracted: string, members: seq<Member>, score: Scorer, r: seq<(Member, int)>)
    requires Bounded(score) && ProperSuggestions(extracted, members, score, r)
    requires forall i, j :: 0 <= i < j < |members| ==> members[i].name != members[j].name
    ensures forall k, l :: 0 <= k < l < |r| ==> r[k].0 != r[l].0
  {
    var p :| RankedPositions(extracted, members, score, r, p);
    forall k, l | 0 <= k < l < |r| ensures r[k].0 != r[l].0 {
      assert Before(extracted, NamesOf(members), score, p[k], p[l]);
      assert p[k] != p[l];
      if p[k] < p[l] {
        assert members[p[k]].name != members[p[l]].name;
      } else {
        assert members[p[l]].name != members[p[k]].name;
      }
    }
  }

  /** The first suggestion scores at least as high as every roster member. */
  lemma HeadScoresBest(extracted: string, members: seq<Member>, score: Scorer, r: seq<(Member, int)>, j: nat)
    requires Bounded(score) && ProperSuggestions(extracted, members, score, r)
    requires r != [] && j < |members|
    ensures score(extracted, members[j].name) <= score(extracted, r[0].0.name)
  {
    if k :| 0 <= k < |r| && r[k].0.name == members[j].name {
      assert k == 0 || score(extracted, r[0].0.name) >= score(extracted, r[k].0.name);
    } else {
      assert |r| == 1 || score(extracted, r[0].0.name) >= score(extracted, r[|r| - 1].0.name);
    }
  }

  lemma TruncateMonotone(x: real, y: real)
    requires 0.0 <= x <= y
    ensures Truncate(x) <= Truncate(y)
  {
  }

}
