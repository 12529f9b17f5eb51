/** The per-member risk rule of the group analytics endpoint (api.py): a risk score summed
    from absences, inactivity and stuck detections, and a risk level chosen from it unless
    the member has a win or revenue. The two-week window and the revenue test are inputs. */
module GroupAnalytics {
  import Constants

  /** What the rule reads about one member of one group. */
  datatype MemberActivity = MemberActivity(
    statuses: seq<string>,  // the `status` of each of the member's attendance rows in the group
    recentGoals: nat,       // goals created within the last two weeks
    stuckCount: nat,        // stuck detections
    hasWins: bool,          // some marketing activity has a truthy `is_win`
    hasRevenue: bool)       // some marketing activity has a revenue above zero

  /** `len([a for a in records if a['status'] == 'present'])`. */
  function CountPresent(statuses: seq<string>): (n: nat)
    ensures n <= |statuses|
  {
    if statuses == [] then 0
    else CountPresent(statuses[..|statuses| - 1]) + (if statuses[|statuses| - 1] == "present" then 1 else 0)
  }

  /** `len([a for a in records if a['status'] != 'present'])`. */
  function CountAbsent(statuses: seq<string>): (n: nat)
    ensures n <= |statuses|
  {
    if statuses == [] then 0
    else CountAbsent(statuses[..|statuses| - 1]) + (if statuses[|statuses| - 1] != "present" then 1 else 0)
  }

  /** Every attendance row is counted exactly once, as present or as absent. */
  lemma {:induction false} PresentPlusAbsent(statuses: seq<string>)
    ensures CountPresent(statuses) + CountAbsent(statuses) == |statuses|
    decreases |statuses|
  {
    if statuses != [] {
      PresentPlusAbsent(statuses[..|statuses| - 1]);
    }
  }

  /** A member with no absences has only `'present'` rows. */
  lemma {:induction false} NoAbsenceAllPresent(statuses: seq<string>)
    ensures CountAbsent(statuses) == 0 <==> forall i :: 0 <= i < |statuses| ==> statuses[i] == "present"
    decreases |statuses|
  {
    if statuses != [] {
      var init := statuses[..|statuses| - 1];
      NoAbsenceAllPresent(init);
      assert forall i :: 0 <= i < |init| ==> init[i] == statuses[i];
    }
  }

  /** The risk score as a sum of optional terms: 3 for two or more absences, otherwise 1 for
      one; 2 for no recent goals in a group with sessions; 2 for two or more stuck detections. */
  function Score(absentCount: nat, totalSessions: nat, recentGoals: nat, stuckCount: nat): (s: int)
    ensures 0 <= s <= 7
  {
    (if absentCount >= 2 then 3 else if absentCount == 1 then 1 else 0) +
    (if recentGoals == 0 && totalSessions > 0 then 2 else 0) +
    (if stuckCount >= 2 then 2 else 0)
  }

  /** The thresholds of the level rule in terms of the risk factors: high risk needs two of
      the three major factors, medium risk one of them, and a single absence alone never
      leaves `on_track`. */
  lemma ScoreThresholds(absentCount: nat, totalSessions: nat, recentGoals: nat, stuckCount: nat)
    ensures var s := Score(absentCount, totalSessions, recentGoals, stuckCount);
      var inactive := recentGoals == 0 && totalSessions > 0;
      (s >= 4 <==> (absentCount >= 2 && (inactive || stuckCount >= 2)) || (inactive && stuckCount >= 2)) &&
      (s >= 2 <==> absentCount >= 2 || inactive || stuckCount >= 2) &&
      (s % 2 == 1 <==> absentCount >= 1)
  {
  }

  /** More absences or more stuck detections never lower the score. */
  lemma ScoreMonotone(absent1: nat, absent2: nat, total: nat, recent: nat, stuck1: nat, stuck2: nat)
    requires absent1 <= absent2 && stuck1 <= stuck2
    ensures Score(absent1, total, recent, stuck1) <= Score(absent2, total, recent, stuck2)
  {
  }

  /** The risk score, accumulated step by step as in the endpoint. */
  method RiskScore(absentCount: nat, totalSessions: nat, recentGoals: nat, stuckCount: nat) returns (score: int)
    ensures score == Score(absentCount, totalSessions, recentGoals, stuckCount)
  {
    score := 0;
    if absentCount >= 2 {
      score := score + 3;
    }
    if recentGoals == 0 && totalSessions > 0 {
      score := score + 2;
    }
    if stuckCount >= 2 {
      score := score + 2;
    }
    if absentCount == 1 {
      score := score + 1;
    }
  }

  /** The level chosen from the score: a win or revenue overrides every risk factor. */
  function RiskLevel(score: int, hasWins: bool, hasRevenue: bool): (level: string)
    ensures level in Constants.RiskCategories && level != "intervention"
    ensures level == "crushing_it" <==> hasWins || hasRevenue
    ensures !(hasWins || hasRevenue) ==>
      (level == "high_risk" <==> score >= 4) && (level == "medium_risk" <==> 2 <= score < 4) &&
      (level == "on_track" <==> score < 2)
  {
    if hasWins || hasRevenue then "crushing_it"
    else if score >= 4 then "high_risk"
    else if score >= 2 then "medium_risk"
    else "on_track"
  }

  /** The rule for one member: counts from the attendance rows, then score and level. */
  method AssessMember(a: MemberActivity) returns (score: int, level: string)
    ensures score == Score(CountAbsent(a.statuses), |a.statuses|, a.recentGoals, a.stuckCount)
    ensures level == RiskLevel(score, a.hasWins, a.hasRevenue)
    ensures !(a.hasWins || a.hasRevenue) ==>
      (level == "on_track" <==>
        CountAbsent(a.statuses) < 2 && (a.recentGoals > 0 || a.statuses == []) && a.stuckCount < 2)
  {
    var totalSessions := |a.statuses|;
    var absentCount := CountAbsent(a.statuses);
    score := RiskScore(absentCount, totalSessions, a.recentGoals, a.stuckCount);
    level := RiskLevel(score, a.hasWins, a.hasRevenue);
    ScoreThresholds(absentCount, totalSessions, a.recentGoals, a.stuckCount);
  }
}
