/** The store the db/operations functions write to, as an object with one field per table,
    and the savers and updaters as methods on it. Each saver is proved to leave the store
    exactly as the matching function of module Persistence says. */
module Storage {
  import opened Values
  import opened Seqs
  import opened Records
  import opened Persistence

  class Database {
    var sessions: seq<SessionRow>
    var attendance: map<AttendanceKey, AttendanceRow>
    var goals: seq<GoalRow>
    var challenges: seq<ChallengeRow>
    var strategies: seq<StrategyRow>
    var activities: seq<ActivityRow>
    var outcomes: seq<OutcomeRow>
    var stucks: seq<StuckRow>
    var sentiments: seq<SentimentRow>
    var statements: seq<StatementRow>
    /** The tables whose writes raise. */
    const down: set<Table>

    /** The current contents of the store. */
    function Tables(): Tables
      reads this
    {
      Persistence.Tables(sessions, attendance, goals, challenges, strategies, activities, outcomes,
                         stucks, sentiments, statements, down)
    }

    constructor(sessions: seq<SessionRow>, down: set<Table>)
      ensures Tables() == Persistence.Tables(sessions, map[], [], [], [], [], [], [], [], [], down)
    {
      this.sessions := sessions;
      this.attendance := map[];
      this.goals := [];
      this.challenges := [];
      this.strategies := [];
      this.activities := [];
      this.outcomes := [];
      this.stucks := [];
      this.sentiments := [];
      this.statements := [];
      this.down := down;
    }

    /** `save_attendance_records`: build one record per input, then upsert the batch. */
    method SaveAttendanceRecords(sessionId: int, records: seq<AttendanceRecord>) returns (outcome: Outcome)
      modifies this
      ensures Saved(Tables(), outcome) == SaveAttendanceSpec(old(Tables()), sessionId, records)
    {
      var rows := CollectAll(records, AttendanceRowFor(sessionId));
      if rows.Err? {
        return Failed(rows.error);
      }
      if rows.value != [] {
        if AttendanceTable in down {
          return Failed(StoreError);
        }
        for i := 0 to |rows.value|
          invariant attendance == UpsertRows(old(attendance), rows.value[..i])
          invariant Tables() == old(Tables()).(attendance := attendance)
        {
          assert rows.value[..i + 1][..i] == rows.value[..i];
          var row := rows.value[i];
          attendance := attendance[KeyOf(row) := row];
        }
        assert rows.value[..|rows.value|] == rows.value;
      }
      return Done;
    }

    /** `update_attendance_status`: set `status`, and `notes` when given, on the row of
        `(session_id, member_id)`; None when there is no such row. */
    method UpdateAttendanceStatus(sessionId: int, memberId: int, status: string, notes: Option<string>)
      returns (updated: Option<AttendanceRow>)
      modifies this
      ensures var key := (sessionId, Some(memberId));
        if key in old(attendance) then
          && updated == Some(old(attendance)[key].(status := Some(status), notes := if notes.Some? then notes else old(attendance)[key].notes))
          && attendance == old(attendance)[key := updated.value]
        else
          updated.None? && attendance == old(attendance)
      ensures Tables() == old(Tables()).(attendance := attendance)
    {
      var key := (sessionId, Some(memberId));
      if key !in attendance {
        return None;
      }
      var row := attendance[key].(status := Some(status));
      if notes.Some? {
        row := row.(notes := notes);
      }
      attendance := attendance[key := row];
      return Some(row);
    }

    /** `save_goals`: build one record per goal, then insert them. */
    method SaveGoals(sessionId: int, goalRecords: seq<GoalRecord>) returns (outcome: Outcome)
      modifies this
      ensures Saved(Tables(), outcome) == SaveGoalsSpec(old(Tables()), sessionId, goalRecords)
    {
      var rows := CollectAll(goalRecords, GoalRowFor(sessionId));
      if rows.Err? {
        return Failed(rows.error);
      }
      if rows.value != [] {
        if GoalsTable in down {
          return Failed(StoreError);
        }
        goals := goals + rows.value;
      }
      return Done;
    }

    /** `update_goal_completion`: set `is_completed` of the goal with that id; None when
        there is none. */
    method UpdateGoalCompletion(goalId: int, isCompleted: bool) returns (updated: Option<GoalRow>)
      modifies this
      ensures if 1 <= goalId <= |old(goals)| then
          && updated == Some(old(goals)[goalId - 1].(isCompleted := isCompleted))
          && goals == old(goals)[goalId - 1 := updated.value]
        else
          updated.None? && goals == old(goals)
      ensures Tables() == old(Tables()).(goals := goals)
    {
      if !(1 <= goalId <= |goals|) {
        return None;
      }
      var row := goals[goalId - 1].(isCompleted := isCompleted);
      goals := goals[goalId - 1 := row];
      return Some(row);
    }

    /** `save_challenges`: for each challenge, insert its row, read back its id, then insert
        its strategy rows pointing at that id. */
    method SaveChallenges(sessionId: int, records: seq<ChallengeRecord>) returns (outcome: Outcome)
      modifies this
      ensures Saved(Tables(), outcome) == SaveChallengesSpec(old(Tables()), sessionId, records)
    {
      for i := 0 to |records|
        invariant SaveChallengesSpec(old(Tables()), sessionId, records) == SaveChallengesSpec(Tables(), sessionId, records[i..])
      {
        assert records[i..][0] == records[i] && records[i..][1..] == records[i + 1..];
        var row := ChallengeRowOf(sessionId, records[i]);
        if row.Err? {
          return Failed(row.error);
        }
        if ChallengesTable in down {
          return Failed(StoreError);
        }
        challenges := challenges + [row.value];
        var challengeId := |challenges|;
        var strategyList := records[i].strategies.Get(Some([]));
        if TruthySeq(strategyList) {
          var strategyRows := CollectAll(strategyList.value, StrategyRowFor(challengeId));
          if strategyRows.Err? {
            return Failed(strategyRows.error);
          }
          if strategyRows.value != [] {
            if StrategiesTable in down {
              return Failed(StoreError);
            }
            strategies := strategies + strategyRows.value;
          }
        }
      }
      return Done;
    }

    /** `save_marketing_activities`: for each activity, insert its row, read back its id, and
        insert an outcome row pointing at it when the outcome is truthy. */
    method SaveMarketingActivities(sessionId: int, records: seq<MarketingRecord>) returns (outcome: Outcome)
      modifies this
      ensures Saved(Tables(), outcome) == SaveMarketingSpec(old(Tables()), sessionId, records)
    {
      for i := 0 to |records|
        invariant SaveMarketingSpec(old(Tables()), sessionId, records) == SaveMarketingSpec(Tables(), sessionId, records[i..])
      {
        assert records[i..][0] == records[i] && records[i..][1..] == records[i + 1..];
        var row := ActivityRowOf(sessionId, records[i]);
        if row.Err? {
          return Failed(row.error);
        }
        if ActivitiesTable in down {
          return Failed(StoreError);
        }
        activities := activities + [row.value];
        var activityId := |activities|;
        if HasOutcome(records[i]) {
          if OutcomesTable in down {
            return Failed(StoreError);
          }
          outcomes := outcomes + [OutcomeRowOf(activityId, records[i].outcome.value)];
        }
      }
      return Done;
    }

    /** `save_stuck_detections`: build one record per detection, then insert them. */
    method SaveStuckDetections(sessionId: int, records: seq<StuckRecord>) returns (outcome: Outcome)
      modifies this
      ensures Saved(Tables(), outcome) == SaveStucksSpec(old(Tables()), sessionId, records)
    {
      var rows := CollectAll(records, StuckRowFor(sessionId));
      if rows.Err? {
        return Failed(rows.error);
      }
      if rows.value != [] {
        if StucksTable in down {
          return Failed(StoreError);
        }
        stucks := stucks + rows.value;
      }
      return Done;
    }

    /** `save_sentiment`: insert the sentiment row, read back its id, then insert the
        statement rows pointing at it. */
    method SaveSentiment(sessionId: int, sentiment: SentimentRecord) returns (outcome: Outcome)
      modifies this
      ensures Saved(Tables(), outcome) == SaveSentimentSpec(old(Tables()), sessionId, sentiment)
    {
      var row := SentimentRowOf(sessionId, sentiment);
      if row.Err? {
        return Failed(row.error);
      }
      if SentimentTable in down {
        return Failed(StoreError);
      }
      sentiments := sentiments + [row.value];
      var sentimentId := |sentiments|;
      var quotes := sentiment.representativeQuotes.Get(Some([]));
      if TruthySeq(quotes) {
        var statementRows := CollectAll(quotes.value, StatementRowFor(sentimentId));
        if statementRows.Err? {
          return Failed(statementRows.error);
        }
        if statementRows.value != [] {
          if StatementsTable in down {
            return Failed(StoreError);
          }
          statements := statements + statementRows.value;
        }
      }
      return Done;
    }

    /** `save_session_extractions`: the six savers in a fixed order, each run only for a
        truthy argument and each failure caught and recorded; the result is always True. */
    method SaveSessionExtractions(
      sessionId: int, attendanceRecords: seq<AttendanceRecord>, goalRecords: seq<GoalRecord>,
      challengeRecords: seq<ChallengeRecord>, marketingRecords: seq<MarketingRecord>,
      stuckRecords: seq<StuckRecord>, sentiment: SentimentRecord)
      returns (success: bool, errors: seq<string>)
      modifies this
      ensures success
      ensures SavedAll(Tables(), errors) ==
        SaveSessionExtractionsSpec(old(Tables()), sessionId, attendanceRecords, goalRecords, challengeRecords,
                                   marketingRecords, stuckRecords, sentiment)
    {
      var attendanceErrors := RunAttendance(sessionId, attendanceRecords);
      var goalErrors := RunGoals(sessionId, goalRecords);
      var challengeErrors := RunChallenges(sessionId, challengeRecords);
      var marketingErrors := RunMarketing(sessionId, marketingRecords);
      var stuckErrors := RunStucks(sessionId, stuckRecords);
      var sentimentErrors := RunSentiment(sessionId, sentiment);
      errors := attendanceErrors + goalErrors + challengeErrors + marketingErrors + stuckErrors + sentimentErrors;
      success := true;
    }

    /** One guarded, caught call of `save_session_extractions`: the attendance saver. */
    method RunAttendance(sessionId: int, attendanceRecords: seq<AttendanceRecord>) returns (errors: seq<string>)
      modifies this
      ensures Tables() == AttendanceStep(old(Tables()), sessionId, attendanceRecords).tables
      ensures errors == ErrorEntry("Attendance", AttendanceStep(old(Tables()), sessionId, attendanceRecords).outcome)
    {
      errors := [];
      if attendanceRecords != [] {
        var o := SaveAttendanceRecords(sessionId, attendanceRecords);
        errors := ErrorEntry("Attendance", o);
      }
    }

    /** One guarded, caught call of `save_session_extractions`: the goals saver. */
    method RunGoals(sessionId: int, goalRecords: seq<GoalRecord>) returns (errors: seq<string>)
      modifies this
      ensures Tables() == GoalsStep(old(Tables()), sessionId, goalRecords).tables
      ensures errors == ErrorEntry("Goals", GoalsStep(old(Tables()), sessionId, goalRecords).outcome)
    {
      errors := [];
      if goalRecords != [] {
        var o := SaveGoals(sessionId, goalRecords);
        errors := ErrorEntry("Goals", o);
      }
    }

    /** One guarded, caught call of `save_session_extractions`: the challenges saver. */
    method RunChallenges(sessionId: int, challengeRecords: seq<ChallengeRecord>) returns (errors: seq<string>)
      modifies this
      ensures Tables() == ChallengesStep(old(Tables()), sessionId, challengeRecords).tables
      ensures errors == ErrorEntry("Challenges", ChallengesStep(old(Tables()), sessionId, challengeRecords).outcome)
    {
      errors := [];
      if challengeRecords != [] {
        var o := SaveChallenges(sessionId, challengeRecords);
        errors := ErrorEntry("Challenges", o);
      }
    }

    /** One guarded, caught call of `save_session_extractions`: the marketing saver. */
    method RunMarketing(sessionId: int, marketingRecords: seq<MarketingRecord>) returns (errors: seq<string>)
      modifies this
      ensures Tables() == MarketingStep(old(Tables()), sessionId, marketingRecords).tables
      ensures errors == ErrorEntry("Marketing", MarketingStep(old(Tables()), sessionId, marketingRecords).outcome)
    {
      errors := [];
      if marketingRecords != [] {
        var o := SaveMarketingActivities(sessionId, marketingRecords);
        errors := ErrorEntry("Marketing", o);
      }
    }

    /** One guarded, caught call of `save_session_extractions`: the stucks saver. */
    method RunStucks(sessionId: int, stuckRecords: seq<StuckRecord>) returns (errors: seq<string>)
      modifies this
      ensures Tables() == StucksStep(old(Tables()), sessionId, stuckRecords).tables
      ensures errors == ErrorEntry("Stucks", StucksStep(old(Tables()), sessionId, stuckRecords).outcome)
    {
      errors := [];
      if stuckRecords != [] {
        var o := SaveStuckDetections(sessionId, stuckRecords);
        errors := ErrorEntry("Stucks", o);
      }
    }

    /** One guarded, caught call of `save_session_extractions`: the sentiment saver. */
    method RunSentiment(sessionId: int, sentiment: SentimentRecord) returns (errors: seq<string>)
      modifies this
      ensures Tables() == SentimentStep(old(Tables()), sessionId, sentiment).tables
      ensures errors == ErrorEntry("Sentiment", SentimentStep(old(Tables()), sessionId, sentiment).outcome)
    {
      errors := [];
      if sentiment.Truthy() {
        var o := SaveSentiment(sessionId, sentiment);
        errors := ErrorEntry("Sentiment", o);
      }
    }

    /** `update_session`: write only the fields given as non-None to the session with that
        id; a missing session raises (`result.data[0]` on an empty list). */
    method UpdateSession(sessionId: int, date: Option<string>, notes: Option<string>, transcript: Option<string>)
      returns (updated: Result<SessionRow>)
      modifies this
      ensures if 1 <= sessionId <= |old(sessions)| then
          var row := old(sessions)[sessionId - 1];
          && updated == Ok(row.(date := date.GetOr(row.date), notes := if notes.Some? then notes else row.notes,
                                transcript := if transcript.Some? then transcript else row.transcript))
          && sessions == old(sessions)[sessionId - 1 := updated.value]
        else
          updated.Err? && sessions == old(sessions)
      ensures Tables() == old(Tables()).(sessions := sessions)
    {
      if !(1 <= sessionId <= |sessions|) {
        return Err("list index out of range");
      }
      var row := sessions[sessionId - 1];
      if date.Some? {
        row := row.(date := date.value);
      }
      if notes.Some? {
        row := row.(notes := notes);
      }
      if transcript.Some? {
        row := row.(transcript := transcript);
      }
      sessions := sessions[sessionId - 1 := row];
      return Ok(row);
    }
  }
}
