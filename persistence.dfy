/** The rows the db/operations savers write and what each saver does to the tables, as
    functions from the tables before to the tables after and an outcome. A saver that
    returns True is `Done`; one that raises is `Failed` with the exception's text. Row ids
    are positions: the row at index `i` of a table has id `i + 1`. */
module Persistence {
  import opened Values
  import opened Seqs
  import opened Records

  datatype SessionRow = SessionRow(groupId: int, sessionNumber: int, date: string, notes: Option<string>, transcript: Option<string>)

  datatype AttendanceRow = AttendanceRow(sessionId: int, memberId: Option<int>, status: Option<string>, notes: Option<string>)

  /** The conflict target of the attendance upsert: `(session_id, member_id)`. */
  type AttendanceKey = (int, Option<int>)

  datatype GoalRow = GoalRow(sessionId: int, memberId: Option<int>, goal: Option<string>, isVague: Option<bool>, isCompleted: bool)

  datatype ChallengeRow = ChallengeRow(sessionId: int, memberId: Option<int>, description: Option<string>, category: Option<string>)

  datatype StrategyRow = StrategyRow(challengeId: int, suggestedBy: Option<int>, summary: Option<string>, tag: Option<string>)

  datatype ActivityRow = ActivityRow(
    sessionId: int,
    memberId: Option<int>,
    stage: Option<string>,
    activity: Option<string>,
    quantity: Option<int>,
    isWin: Option<bool>,
    contractType: Option<string>,
    revenue: Option<real>)

  datatype OutcomeRow = OutcomeRow(
    activityId: int,
    noOfMeetings: Option<int>,
    noOfProposals: Option<int>,
    noOfClients: Option<int>,
    notes: Option<string>)

  datatype StuckRow = StuckRow(
    sessionId: int,
    memberId: Option<int>,
    classification: Option<string>,
    stuckSummary: Option<string>,
    exactQuotes: Option<seq<string>>,
    potentialNextStep: Option<string>)

  datatype SentimentRow = SentimentRow(
    sessionId: int,
    sentimentScore: Option<int>,
    rationale: Option<string>,
    dominantEmotion: Option<string>,
    confidenceScore: Option<real>)

  datatype StatementRow = StatementRow(
    sentimentId: int,
    memberId: Option<int>,
    emotions: Option<seq<string>>,
    exactQuotes: Option<seq<string>>,
    isNegative: Option<bool>)

  datatype Table =
    | SessionsTable | AttendanceTable | GoalsTable | ChallengesTable | StrategiesTable
    | ActivitiesTable | OutcomesTable | StucksTable | SentimentTable | StatementsTable

  /** The whole store; a write to a table in `down` raises. */
  datatype Tables = Tables(
    sessions: seq<SessionRow>,
    attendance: map<AttendanceKey, AttendanceRow>,
    goals: seq<GoalRow>,
    challenges: seq<ChallengeRow>,
    strategies: seq<StrategyRow>,
    activities: seq<ActivityRow>,
    outcomes: seq<OutcomeRow>,
    stucks: seq<StuckRow>,
    sentiments: seq<SentimentRow>,
    statements: seq<StatementRow>,
    down: set<Table>)

  datatype Outcome = Done | Failed(reason: string)

  datatype Saved = Saved(tables: Tables, outcome: Outcome)

  /** The text of a failed store write. */
  const StoreError := "store write failed"

  /** `str(KeyError(key))`. */
  function KeyError(key: string): string {
    "'" + key + "'"
  }

  // ---------------------------------------------------------------------------------------
  // Attendance: build the records, then upsert on (session_id, member_id)
  // ---------------------------------------------------------------------------------------

  function AttendanceRowFor(sessionId: int): AttendanceRecord -> Result<AttendanceRow> {
    (r: AttendanceRecord) =>
      if r.memberId.Missing? then Err(KeyError("member_id"))
      else if r.status.Missing? then Err(KeyError("status"))
      else Ok(AttendanceRow(sessionId, r.memberId.Raw(), r.status.Raw(), r.notes.Raw()))
  }

  function KeyOf(row: AttendanceRow): AttendanceKey {
    (row.sessionId, row.memberId)
  }

  /** Upserting a batch one row after another. */
  function UpsertRows(m: map<AttendanceKey, AttendanceRow>, rows: seq<AttendanceRow>): map<AttendanceKey, AttendanceRow> {
    if rows == [] then m
    else UpsertRows(m, rows[..|rows| - 1])[KeyOf(rows[|rows| - 1]) := rows[|rows| - 1]]
  }

  /** The rows of a batch by key, a later row replacing an earlier one with the same key. */
  function Latest(rows: seq<AttendanceRow>): map<AttendanceKey, AttendanceRow> {
    UpsertRows(map[], rows)
  }

  function SaveAttendanceSpec(t: Tables, sessionId: int, records: seq<AttendanceRecord>): (s: Saved)
    ensures s.tables == t.(attendance := s.tables.attendance)
    ensures s.outcome.Failed? ==> s.tables == t
  {
    match Collect(records, AttendanceRowFor(sessionId))
    case Err(k) => Saved(t, Failed(k))
    case Ok(rows) =>
      if rows == [] then Saved(t, Done)
      else if AttendanceTable in t.down then Saved(t, Failed(StoreError))
      else Saved(t.(attendance := UpsertRows(t.attendance, rows)), Done)
  }

  /** An upsert overrides the table with the batch's latest row per key and keeps the rest. */
  lemma {:induction false} UpsertIsOverride(m: map<AttendanceKey, AttendanceRow>, rows: seq<AttendanceRow>)
    ensures UpsertRows(m, rows) == m + Latest(rows)
    decreases |rows|
  {
    if rows != [] {
      var init := rows[..|rows| - 1];
      var last := rows[|rows| - 1];
      UpsertIsOverride(m, init);
      UpsertIsOverride(map[], init);
      assert Latest(rows) == Latest(init)[KeyOf(last) := last];
      assert (m + Latest(init))[KeyOf(last) := last] == m + Latest(init)[KeyOf(last) := last];
    }
  }

  /** Every row of the batch is under its key, and only the batch's keys are written. */
  lemma {:induction false} LatestKeys(rows: seq<AttendanceRow>)
    ensures forall i :: 0 <= i < |rows| ==> KeyOf(rows[i]) in Latest(rows)
    ensures forall k :: k in Latest(rows) ==> Latest(rows)[k] in rows && KeyOf(Latest(rows)[k]) == k
    decreases |rows|
  {
    if rows != [] {
      var init := rows[..|rows| - 1];
      LatestKeys(init);
      assert Latest(rows) == Latest(init)[KeyOf(rows[|rows| - 1]) := rows[|rows| - 1]];
      assert forall i :: 0 <= i < |init| ==> init[i] == rows[i];
      assert forall r :: r in init ==> r in rows;
    }
  }

  /** Saving one record per input, stamped with the session id, `notes` None when absent. */
  lemma AttendanceRecordsShaped(t: Tables, sessionId: int, records: seq<AttendanceRecord>)
    requires SaveAttendanceSpec(t, sessionId, records).outcome.Done? && records != []
    ensures var rows := Collect(records, AttendanceRowFor(sessionId)).value;
      && |rows| == |records|
      && (forall i :: 0 <= i < |records| ==>
            rows[i] == AttendanceRow(sessionId, records[i].memberId.Raw(), records[i].status.Raw(), records[i].notes.Raw()))
      && SaveAttendanceSpec(t, sessionId, records).tables.attendance == t.attendance + Latest(rows)
  {
    var rows := Collect(records, AttendanceRowFor(sessionId)).value;
    CollectOk(records, AttendanceRowFor(sessionId));
    UpsertIsOverride(t.attendance, rows);
  }

  /** An empty list makes no store call: it succeeds even when the table is down. */
  lemma EmptyAttendanceNoCall(t: Tables, sessionId: int)
    ensures SaveAttendanceSpec(t, sessionId, []) == Saved(t, Done)
  {
  }

  /** Saving the same records twice leaves the same rows as saving them once. */
  lemma AttendanceIdempotent(t: Tables, sessionId: int, records: seq<AttendanceRecord>)
    ensures var once := SaveAttendanceSpec(t, sessionId, records).tables;
      SaveAttendanceSpec(once, sessionId, records).tables == once
  {
    match Collect(records, AttendanceRowFor(sessionId))
    case Err(_) =>
    case Ok(rows) =>
      if rows != [] && AttendanceTable !in t.down {
        UpsertIsOverride(t.attendance, rows);
        UpsertIsOverride(t.attendance + Latest(rows), rows);
        assert (t.attendance + Latest(rows)) + Latest(rows) == t.attendance + Latest(rows);
      }
  }

  /** The save fails exactly on a record without `member_id` or `status`, or on a store failure. */
  lemma AttendanceFailsIff(t: Tables, sessionId: int, records: seq<AttendanceRecord>)
    ensures SaveAttendanceSpec(t, sessionId, records).outcome.Failed? <==>
      (exists i :: 0 <= i < |records| && (records[i].memberId.Missing? || records[i].status.Missing?)) ||
      (records != [] && AttendanceTable in t.down)
  {
    CollectOk(records, AttendanceRowFor(sessionId));
    if Collect(records, AttendanceRowFor(sessionId)).Err? {
      CollectErr(records, AttendanceRowFor(sessionId));
    }
  }

  // ---------------------------------------------------------------------------------------
  // Goals: build the records, then insert
  // ---------------------------------------------------------------------------------------

  function GoalRowFor(sessionId: int): GoalRecord -> Result<GoalRow> {
    (g: GoalRecord) =>
      if g.memberId.Missing? then Err(KeyError("member_id"))
      else if g.goal.Missing? then Err(KeyError("goal"))
      else Ok(GoalRow(sessionId, g.memberId.Raw(), g.goal.Raw(), g.isVague.Get(Some(false)), false))
  }

  function SaveGoalsSpec(t: Tables, sessionId: int, goals: seq<GoalRecord>): (s: Saved)
    ensures s.tables == t.(goals := s.tables.goals)
    ensures s.outcome.Failed? ==> s.tables == t
  {
    match Collect(goals, GoalRowFor(sessionId))
    case Err(k) => Saved(t, Failed(k))
    case Ok(rows) =>
      if rows == [] then Saved(t, Done)
      else if GoalsTable in t.down then Saved(t, Failed(StoreError))
      else Saved(t.(goals := t.goals + rows), Done)
  }

  /** One new row per goal, in order, stamped with the session id, not completed, and
      `is_vague` False when absent. */
  lemma GoalsShaped(t: Tables, sessionId: int, goals: seq<GoalRecord>)
    requires SaveGoalsSpec(t, sessionId, goals).outcome.Done?
    ensures var after := SaveGoalsSpec(t, sessionId, goals).tables.goals;
      && |after| == |t.goals| + |goals|
      && after[..|t.goals|] == t.goals
      && forall i :: 0 <= i < |goals| ==>
           after[|t.goals| + i] == GoalRow(sessionId, goals[i].memberId.Raw(), goals[i].goal.Raw(),
                                            goals[i].isVague.Get(Some(false)), false)
  {
    CollectOk(goals, GoalRowFor(sessionId));
  }

  /** Goals are inserted, not upserted: saving the same goals twice appends them twice. */
  lemma GoalsTwiceDuplicate(t: Tables, sessionId: int, goals: seq<GoalRecord>)
    requires SaveGoalsSpec(t, sessionId, goals).outcome.Done? && goals != []
    ensures var once := SaveGoalsSpec(t, sessionId, goals).tables;
      var twice := SaveGoalsSpec(once, sessionId, goals).tables;
      twice.goals == t.goals + Collect(goals, GoalRowFor(sessionId)).value + Collect(goals, GoalRowFor(sessionId)).value
  {
  }

  // ---------------------------------------------------------------------------------------
  // Challenges: a parent row, then its strategy rows, challenge after challenge
  // ---------------------------------------------------------------------------------------

  function ChallengeRowOf(sessionId: int, c: ChallengeRecord): Result<ChallengeRow> {
    if c.memberId.Missing? then Err(KeyError("member_id"))
    else if c.description.Missing? then Err(KeyError("description"))
    else Ok(ChallengeRow(sessionId, c.memberId.Raw(), c.description.Raw(), c.category.Raw()))
  }

  function StrategyRowFor(challengeId: int): StrategyRecord -> Result<StrategyRow> {
    (s: StrategyRecord) =>
      if s.summary.Missing? then Err(KeyError("summary"))
      else Ok(StrategyRow(challengeId, s.suggestedBy.Raw(), s.summary.Raw(), s.tag.Raw()))
  }

  function SaveChallengesSpec(t: Tables, sessionId: int, cs: seq<ChallengeRecord>): (s: Saved)
    ensures s.tables == t.(challenges := s.tables.challenges, strategies := s.tables.strategies)
    ensures t.challenges <= s.tables.challenges && t.strategies <= s.tables.strategies
    decreases |cs|
  {
    if cs == [] then Saved(t, Done)
    else
      match ChallengeRowOf(sessionId, cs[0])
      case Err(k) => Saved(t, Failed(k))
      case Ok(row) =>
        if ChallengesTable in t.down then Saved(t, Failed(StoreError))
        else
          var t1 := t.(challenges := t.challenges + [row]);
          var strategies := cs[0].strategies.Get(Some([]));
          if !TruthySeq(strategies) then SaveChallengesSpec(t1, sessionId, cs[1..])
          else
            match Collect(strategies.value, StrategyRowFor(|t1.challenges|))
            case Err(k) => Saved(t1, Failed(k))
            case Ok(rows) =>
              if rows == [] then SaveChallengesSpec(t1, sessionId, cs[1..])
              else if StrategiesTable in t.down then Saved(t1, Failed(StoreError))
              else SaveChallengesSpec(t1.(strategies := t1.strategies + rows), sessionId, cs[1..])
  }

  /** The strategy rows of a challenge whose row has id `challengeId`. */
  function StrategyRowsOf(challengeId: int, c: ChallengeRecord): seq<StrategyRow> {
    var strategies := c.strategies.Get(Some([]));
    if !TruthySeq(strategies) then []
    else
      match Collect(strategies.value, StrategyRowFor(challengeId))
      case Ok(rows) => rows
      case Err(_) => []
  }

  /** The strategy rows of `cs` when their challenge rows get ids from `base + 1` on. */
  function AllStrategyRows(base: int, cs: seq<ChallengeRecord>): seq<StrategyRow>
    decreases |cs|
  {
    if cs == [] then [] else StrategyRowsOf(base + 1, cs[0]) + AllStrategyRows(base + 1, cs[1..])
  }

  /** Every strategy row of a challenge carries that challenge row's id. */
  lemma StrategyRowsReferToParent(challengeId: int, c: ChallengeRecord)
    ensures forall r :: r in StrategyRowsOf(challengeId, c) ==> r.challengeId == challengeId
  {
    var strategies := c.strategies.Get(Some([]));
    if TruthySeq(strategies) {
      CollectOk(strategies.value, StrategyRowFor(challengeId));
    }
  }

  /** The tables after the first challenge of a save is written in full. */
  function AfterChallenge(t: Tables, row: ChallengeRow, c: ChallengeRecord): Tables {
    var t1 := t.(challenges := t.challenges + [row]);
    var rows := StrategyRowsOf(|t1.challenges|, c);
    if rows == [] then t1 else t1.(strategies := t1.strategies + rows)
  }

  lemma ChallengesUnfold(t: Tables, sessionId: int, cs: seq<ChallengeRecord>)
    requires cs != [] && SaveChallengesSpec(t, sessionId, cs).outcome.Done?
    ensures ChallengeRowOf(sessionId, cs[0]).Ok?
    ensures SaveChallengesSpec(t, sessionId, cs) ==
      SaveChallengesSpec(AfterChallenge(t, ChallengeRowOf(sessionId, cs[0]).value, cs[0]), sessionId, cs[1..])
  {
  }

  /** A complete save adds one challenge row per input, in order, and after the rows of
      challenge `i` come the strategy rows pointing at it. */
  lemma ChallengesSaved(t: Tables, sessionId: int, cs: seq<ChallengeRecord>)
    requires SaveChallengesSpec(t, sessionId, cs).outcome.Done?
    ensures var after := SaveChallengesSpec(t, sessionId, cs).tables;
      && |after.challenges| == |t.challenges| + |cs|
      && (forall i :: 0 <= i < |cs| ==> ChallengeRowOf(sessionId, cs[i]) == Ok(after.challenges[|t.challenges| + i]))
      && after.strategies == t.strategies + AllStrategyRows(|t.challenges|, cs)
  {
    ChallengeRowsSaved(t, sessionId, cs);
    ChallengeStrategiesSaved(t, sessionId, cs);
  }

  lemma {:induction false} ChallengeRowsSaved(t: Tables, sessionId: int, cs: seq<ChallengeRecord>)
    requires SaveChallengesSpec(t, sessionId, cs).outcome.Done?
    ensures var after := SaveChallengesSpec(t, sessionId, cs).tables;
      && |after.challenges| == |t.challenges| + |cs|
      && (forall i :: 0 <= i < |cs| ==> ChallengeRowOf(sessionId, cs[i]) == Ok(after.challenges[|t.challenges| + i]))
    decreases |cs|
  {
    if cs != [] {
      ChallengesUnfold(t, sessionId, cs);
      var row := ChallengeRowOf(sessionId, cs[0]).value;
      var t2 := AfterChallenge(t, row, cs[0]);
      var rest := cs[1..];
      ChallengeRowsSaved(t2, sessionId, rest);
      var after := SaveChallengesSpec(t2, sessionId, rest).tables;
      var n := |t.challenges|;
      assert |t2.challenges| == n + 1 && t2.challenges[n] == row;
      assert after.challenges[n] == row;
      forall i | 0 <= i < |cs|
        ensures ChallengeRowOf(sessionId, cs[i]) == Ok(after.challenges[n + i])
      {
        if i > 0 {
          assert rest[i - 1] == cs[i];
        }
      }
    }
  }

  lemma {:induction false} ChallengeStrategiesSaved(t: Tables, sessionId: int, cs: seq<ChallengeRecord>)
    requires SaveChallengesSpec(t, sessionId, cs).outcome.Done?
    ensures SaveChallengesSpec(t, sessionId, cs).tables.strategies == t.strategies + AllStrategyRows(|t.challenges|, cs)
    decreases |cs|
  {
    if cs != [] {
      ChallengesUnfold(t, sessionId, cs);
      var t2 := AfterChallenge(t, ChallengeRowOf(sessionId, cs[0]).value, cs[0]);
      ChallengeStrategiesSaved(t2, sessionId, cs[1..]);
      assert t2.strategies == t.strategies + StrategyRowsOf(|t.challenges| + 1, cs[0]);
    }
  }

  /** No rollback: when a challenge's strategies cannot be written, its row stays. */
  lemma ParentKeptWhenStrategiesFail(t: Tables, sessionId: int, cs: seq<ChallengeRecord>)
    requires cs != [] && ChallengeRowOf(sessionId, cs[0]).Ok? && ChallengesTable !in t.down
    requires TruthySeq(cs[0].strategies.Get(Some([]))) && StrategiesTable in t.down
    ensures SaveChallengesSpec(t, sessionId, cs) ==
      Saved(t.(challenges := t.challenges + [ChallengeRowOf(sessionId, cs[0]).value]),
            if Collect(cs[0].strategies.Get(Some([])).value, StrategyRowFor(|t.challenges| + 1)).Err?
            then Failed(Collect(cs[0].strategies.Get(Some([])).value, StrategyRowFor(|t.challenges| + 1)).error)
            else Failed(StoreError))
  {
    var strategies := cs[0].strategies.Get(Some([])).value;
    if Collect(strategies, StrategyRowFor(|t.challenges| + 1)).Ok? {
      assert |Collect(strategies, StrategyRowFor(|t.challenges| + 1)).value| == |strategies| > 0;
    }
  }

  // ---------------------------------------------------------------------------------------
  // Marketing: an activity row, then an outcome row when the outcome is truthy
  // ---------------------------------------------------------------------------------------

  function ActivityRowOf(sessionId: int, a: MarketingRecord): Result<ActivityRow> {
    if a.memberId.Missing? then Err(KeyError("member_id"))
    else if a.stage.Missing? then Err(KeyError("stage"))
    else if a.activity.Missing? then Err(KeyError("activity"))
    else Ok(ActivityRow(sessionId, a.memberId.Raw(), a.stage.Raw(), a.activity.Raw(),
                        a.quantity.Get(Some(0)), a.isWin.Get(Some(false)), a.contractType.Raw(), a.revenue.Raw()))
  }

  function OutcomeRowOf(activityId: int, o: OutcomeRecord): OutcomeRow {
    OutcomeRow(activityId, o.noOfMeetings.Get(Some(0)), o.noOfProposals.Get(Some(0)),
               o.noOfClients.Get(Some(0)), o.notes.Raw())
  }

  /** `if outcome:` on `activity.get('outcome')`. */
  predicate HasOutcome(a: MarketingRecord) {
    a.outcome.Val? && a.outcome.value.Truthy()
  }

  function SaveMarketingSpec(t: Tables, sessionId: int, activities: seq<MarketingRecord>): (s: Saved)
    ensures s.tables == t.(activities := s.tables.activities, outcomes := s.tables.outcomes)
    ensures t.activities <= s.tables.activities && t.outcomes <= s.tables.outcomes
    decreases |activities|
  {
    if activities == [] then Saved(t, Done)
    else
      match ActivityRowOf(sessionId, activities[0])
      case Err(k) => Saved(t, Failed(k))
      case Ok(row) =>
        if ActivitiesTable in t.down then Saved(t, Failed(StoreError))
        else
          var t1 := t.(activities := t.activities + [row]);
          if !HasOutcome(activities[0]) then SaveMarketingSpec(t1, sessionId, activities[1..])
          else if OutcomesTable in t.down then Saved(t1, Failed(StoreError))
          else
            var outcome := OutcomeRowOf(|t1.activities|, activities[0].outcome.value);
            SaveMarketingSpec(t1.(outcomes := t1.outcomes + [outcome]), sessionId, activities[1..])
  }

  /** The outcome rows of `activities` when their activity rows get ids from `base + 1` on. */
  function AllOutcomeRows(base: int, activities: seq<MarketingRecord>): seq<OutcomeRow>
    decreases |activities|
  {
    if activities == [] then []
    else
      (if HasOutcome(activities[0]) then [OutcomeRowOf(base + 1, activities[0].outcome.value)] else []) +
      AllOutcomeRows(base + 1, activities[1..])
  }

  /** The tables after the first activity of a save is written in full. */
  function AfterActivity(t: Tables, row: ActivityRow, a: MarketingRecord): Tables {
    var t1 := t.(activities := t.activities + [row]);
    if HasOutcome(a) then t1.(outcomes := t1.outcomes + [OutcomeRowOf(|t1.activities|, a.outcome.value)]) else t1
  }

  lemma MarketingUnfold(t: Tables, sessionId: int, activities: seq<MarketingRecord>)
    requires activities != [] && SaveMarketingSpec(t, sessionId, activities).outcome.Done?
    ensures ActivityRowOf(sessionId, activities[0]).Ok?
    ensures SaveMarketingSpec(t, sessionId, activities) ==
      SaveMarketingSpec(AfterActivity(t, ActivityRowOf(sessionId, activities[0]).value, activities[0]), sessionId, activities[1..])
  {
  }

  /** A complete save adds one activity row per input, in order, and one outcome row, pointing
      at its activity, per truthy outcome. */
  lemma MarketingSaved(t: Tables, sessionId: int, activities: seq<MarketingRecord>)
    requires SaveMarketingSpec(t, sessionId, activities).outcome.Done?
    ensures var after := SaveMarketingSpec(t, sessionId, activities).tables;
      && |after.activities| == |t.activities| + |activities|
      && (forall i :: 0 <= i < |activities| ==>
            ActivityRowOf(sessionId, activities[i]) == Ok(after.activities[|t.activities| + i]))
      && after.outcomes == t.outcomes + AllOutcomeRows(|t.activities|, activities)
  {
    ActivityRowsSaved(t, sessionId, activities);
    OutcomeRowsSaved(t, sessionId, activities);
  }

  lemma {:induction false} ActivityRowsSaved(t: Tables, sessionId: int, activities: seq<MarketingRecord>)
    requires SaveMarketingSpec(t, sessionId, activities).outcome.Done?
    ensures var after := SaveMarketingSpec(t, sessionId, activities).tables;
      && |after.activities| == |t.activities| + |activities|
      && (forall i :: 0 <= i < |activities| ==>
            ActivityRowOf(sessionId, activities[i]) == Ok(after.activities[|t.activities| + i]))
    decreases |activities|
  {
    if activities != [] {
      MarketingUnfold(t, sessionId, activities);
      var row := ActivityRowOf(sessionId, activities[0]).value;
      var t2 := AfterActivity(t, row, activities[0]);
      var rest := activities[1..];
      ActivityRowsSaved(t2, sessionId, rest);
      var after := SaveMarketingSpec(t2, sessionId, rest).tables;
      var n := |t.activities|;
      assert |t2.activities| == n + 1 && t2.activities[n] == row;
      assert after.activities[n] == row;
      forall i | 0 <= i < |activities|
        ensures ActivityRowOf(sessionId, activities[i]) == Ok(after.activities[n + i])
      {
        if i > 0 {
          assert rest[i - 1] == activities[i];
        }
      }
    }
  }

  lemma {:induction false} OutcomeRowsSaved(t: Tables, sessionId: int, activities: seq<MarketingRecord>)
    requires SaveMarketingSpec(t, sessionId, activities).outcome.Done?
    ensures SaveMarketingSpec(t, sessionId, activities).tables.outcomes == t.outcomes + AllOutcomeRows(|t.activities|, activities)
    decreases |activities|
  {
    if activities != [] {
      MarketingUnfold(t, sessionId, activities);
      var t2 := AfterActivity(t, ActivityRowOf(sessionId, activities[0]).value, activities[0]);
      OutcomeRowsSaved(t2, sessionId, activities[1..]);
      assert |t2.activities| == |t.activities| + 1;
    }
  }

  /** Every outcome row points at an activity row written by the same save. */
  lemma {:induction false} OutcomeRowsReferToActivities(base: int, activities: seq<MarketingRecord>)
    ensures forall r :: r in AllOutcomeRows(base, activities) ==> base < r.activityId <= base + |activities|
    decreases |activities|
  {
    if activities != [] {
      OutcomeRowsReferToActivities(base + 1, activities[1..]);
    }
  }

  /** An empty outcome dict produces no outcome row, and its counts default to 0 otherwise. */
  lemma OutcomeRowOnlyWhenTruthy(base: int, a: MarketingRecord)
    ensures a.outcome == Val(EmptyOutcome) ==> AllOutcomeRows(base, [a]) == []
    ensures HasOutcome(a) && a.outcome.value.noOfMeetings.Missing? ==>
      AllOutcomeRows(base, [a])[0].noOfMeetings == Some(0)
  {
    assert [a][1..] == [];
  }

  // ---------------------------------------------------------------------------------------
  // Stuck detections: build the records, then insert
  // ---------------------------------------------------------------------------------------

  function StuckRowFor(sessionId: int): StuckRecord -> Result<StuckRow> {
    (s: StuckRecord) =>
      if s.memberId.Missing? then Err(KeyError("member_id"))
      else if s.classification.Missing? then Err(KeyError("classification"))
      else if s.stuckSummary.Missing? then Err(KeyError("stuck_summary"))
      else Ok(StuckRow(sessionId, s.memberId.Raw(), s.classification.Raw(), s.stuckSummary.Raw(),
                       s.exactQuotes.Get(Some([])), s.potentialNextStep.Raw()))
  }

  function SaveStucksSpec(t: Tables, sessionId: int, stucks: seq<StuckRecord>): (s: Saved)
    ensures s.tables == t.(stucks := s.tables.stucks)
    ensures s.outcome.Failed? ==> s.tables == t
  {
    match Collect(stucks, StuckRowFor(sessionId))
    case Err(k) => Saved(t, Failed(k))
    case Ok(rows) =>
      if rows == [] then Saved(t, Done)
      else if StucksTable in t.down then Saved(t, Failed(StoreError))
      else Saved(t.(stucks := t.stucks + rows), Done)
  }

  /** One new row per detection, in order, stamped with the session id; `member_id`,
      `classification` and `stuck_summary` are stored as given, `exact_quotes` defaults to `[]` and `potential_next_step` to None. */
  lemma StucksShaped(t: Tables, sessionId: int, stucks: seq<StuckRecord>)
    requires SaveStucksSpec(t, sessionId, stucks).outcome.Done?
    ensures var after := SaveStucksSpec(t, sessionId, stucks).tables.stucks;
      && |after| == |t.stucks| + |stucks|
      && after[..|t.stucks|] == t.stucks
      && forall i :: 0 <= i < |stucks| ==>
           && after[|t.stucks| + i].sessionId == sessionId
           && after[|t.stucks| + i].memberId == stucks[i].memberId.Raw()
           && after[|t.stucks| + i].classification == stucks[i].classification.Raw()
           && after[|t.stucks| + i].stuckSummary == stucks[i].stuckSummary.Raw()
           && after[|t.stucks| + i].exactQuotes == stucks[i].exactQuotes.Get(Some([]))
           && after[|t.stucks| + i].potentialNextStep == stucks[i].potentialNextStep.Raw()
  {
    CollectOk(stucks, StuckRowFor(sessionId));
  }

  /** `classification` and `stuck_summary` are required: a detection without one fails the
      whole batch before anything is written. */
  lemma StuckRequiredKeys(t: Tables, sessionId: int, stucks: seq<StuckRecord>, i: nat)
    requires i < |stucks| && (stucks[i].classification.Missing? || stucks[i].stuckSummary.Missing?)
    ensures SaveStucksSpec(t, sessionId, stucks) == Saved(t, SaveStucksSpec(t, sessionId, stucks).outcome)
    ensures SaveStucksSpec(t, sessionId, stucks).outcome.Failed?
  {
    CollectOk(stucks, StuckRowFor(sessionId));
  }

  // ---------------------------------------------------------------------------------------
  // Sentiment: one sentiment row, then its statement rows
  // ---------------------------------------------------------------------------------------

  function SentimentRowOf(sessionId: int, s: SentimentRecord): Result<SentimentRow> {
    if s.sentimentScore.Missing? then Err(KeyError("sentiment_score"))
    else if s.rationale.Missing? then Err(KeyError("rationale"))
    else if s.dominantEmotion.Missing? then Err(KeyError("dominant_emotion"))
    else Ok(SentimentRow(sessionId, s.sentimentScore.Raw(), s.rationale.Raw(), s.dominantEmotion.Raw(), s.confidenceScore.Raw()))
  }

  function StatementRowFor(sentimentId: int): QuoteRecord -> Result<StatementRow> {
    (q: QuoteRecord) =>
      if q.memberId.Missing? then Err(KeyError("member_id"))
      else Ok(StatementRow(sentimentId, q.memberId.Raw(), q.emotions.Get(Some([])), q.exactQuotes.Get(Some([])),
                           q.isNegative.Get(Some(false))))
  }

  function SaveSentimentSpec(t: Tables, sessionId: int, sentiment: SentimentRecord): (s: Saved)
    ensures s.tables == t.(sentiments := s.tables.sentiments, statements := s.tables.statements)
    ensures t.sentiments <= s.tables.sentiments && t.statements <= s.tables.statements
  {
    match SentimentRowOf(sessionId, sentiment)
    case Err(k) => Saved(t, Failed(k))
    case Ok(row) =>
      if SentimentTable in t.down then Saved(t, Failed(StoreError))
      else
        var t1 := t.(sentiments := t.sentiments + [row]);
        var statements := sentiment.representativeQuotes.Get(Some([]));
        if !TruthySeq(statements) then Saved(t1, Done)
        else
          match Collect(statements.value, StatementRowFor(|t1.sentiments|))
          case Err(k) => Saved(t1, Failed(k))
          case Ok(rows) =>
            if rows == [] then Saved(t1, Done)
            else if StatementsTable in t.down then Saved(t1, Failed(StoreError))
            else Saved(t1.(statements := t1.statements + rows), Done)
  }

  /** A well-formed sentiment adds exactly one sentiment row for the session. A complete save
      then adds one statement row per representative quote, in order, each built from its
      quote and pointing at that row's id; a failed one adds no statement row. */
  lemma SentimentSaved(t: Tables, sessionId: int, sentiment: SentimentRecord)
    requires SentimentRowOf(sessionId, sentiment).Ok? && SentimentTable !in t.down
    ensures var after := SaveSentimentSpec(t, sessionId, sentiment).tables;
      && after.sentiments == t.sentiments + [SentimentRowOf(sessionId, sentiment).value]
      && after.sentiments[|t.sentiments|].sessionId == sessionId
      && forall j :: |t.statements| <= j < |after.statements| ==> after.statements[j].sentimentId == |after.sentiments|
    ensures var saved := SaveSentimentSpec(t, sessionId, sentiment);
      var quotes := sentiment.representativeQuotes.Get(Some([]));
      && (saved.outcome.Failed? || !TruthySeq(quotes) ==> saved.tables.statements == t.statements)
      && (saved.outcome.Done? && TruthySeq(quotes) ==>
            && |saved.tables.statements| == |t.statements| + |quotes.value|
            && forall j :: 0 <= j < |quotes.value| ==>
                 StatementRowFor(|t.sentiments| + 1)(quotes.value[j]) == Ok(saved.tables.statements[|t.statements| + j]))
  {
    var statements := sentiment.representativeQuotes.Get(Some([]));
    if TruthySeq(statements) {
      CollectOk(statements.value, StatementRowFor(|t.sentiments| + 1));
    }
  }

  /** Without representative quotes no statement row is written. */
  lemma NoQuotesNoStatements(t: Tables, sessionId: int, sentiment: SentimentRecord)
    requires !TruthySeq(sentiment.representativeQuotes.Get(Some([])))
    ensures SaveSentimentSpec(t, sessionId, sentiment).tables.statements == t.statements
  {
  }

  /** Statement defaults: `emotions` and `exact_quotes` `[]`, `is_negative` False. */
  lemma StatementDefaults(sentimentId: int, q: QuoteRecord)
    requires !q.memberId.Missing? && q.emotions.Missing? && q.exactQuotes.Missing? && q.isNegative.Missing?
    ensures StatementRowFor(sentimentId)(q) == Ok(StatementRow(sentimentId, q.memberId.Raw(), Some([]), Some([]), Some(false)))
  {
  }

  // ---------------------------------------------------------------------------------------
  // The six savers in sequence, each failure caught and recorded
  // ---------------------------------------------------------------------------------------

  datatype SavedAll = SavedAll(tables: Tables, errors: seq<string>)

  /** The entry appended to `errors` when a saver raises. */
  function ErrorEntry(category: string, o: Outcome): seq<string> {
    if o.Failed? then [category + " error: " + o.reason] else []
  }

  /** What one category does when run alone on `t`; a falsy input runs nothing. */
  function AttendanceStep(t: Tables, sessionId: int, attendance: seq<AttendanceRecord>): Saved {
    if attendance != [] then SaveAttendanceSpec(t, sessionId, attendance) else Saved(t, Done)
  }

  function GoalsStep(t: Tables, sessionId: int, goals: seq<GoalRecord>): Saved {
    if goals != [] then SaveGoalsSpec(t, sessionId, goals) else Saved(t, Done)
  }

  function ChallengesStep(t: Tables, sessionId: int, challenges: seq<ChallengeRecord>): Saved {
    if challenges != [] then SaveChallengesSpec(t, sessionId, challenges) else Saved(t, Done)
  }

  function MarketingStep(t: Tables, sessionId: int, activities: seq<MarketingRecord>): Saved {
    if activities != [] then SaveMarketingSpec(t, sessionId, activities) else Saved(t, Done)
  }

  function StucksStep(t: Tables, sessionId: int, stucks: seq<StuckRecord>): Saved {
    if stucks != [] then SaveStucksSpec(t, sessionId, stucks) else Saved(t, Done)
  }

  function SentimentStep(t: Tables, sessionId: int, sentiment: SentimentRecord): Saved {
    if sentiment.Truthy() then SaveSentimentSpec(t, sessionId, sentiment) else Saved(t, Done)
  }

  function SaveSessionExtractionsSpec(
    t: Tables, sessionId: int, attendance: seq<AttendanceRecord>, goals: seq<GoalRecord>,
    challenges: seq<ChallengeRecord>, activities: seq<MarketingRecord>, stucks: seq<StuckRecord>,
    sentiment: SentimentRecord): SavedAll
  {
    var a := AttendanceStep(t, sessionId, attendance);
    var g := GoalsStep(a.tables, sessionId, goals);
    var c := ChallengesStep(g.tables, sessionId, challenges);
    var m := MarketingStep(c.tables, sessionId, activities);
    var s := StucksStep(m.tables, sessionId, stucks);
    var e := SentimentStep(s.tables, sessionId, sentiment);
    SavedAll(e.tables,
      ErrorEntry("Attendance", a.outcome) + ErrorEntry("Goals", g.outcome) + ErrorEntry("Challenges", c.outcome) +
      ErrorEntry("Marketing", m.outcome) + ErrorEntry("Stucks", s.outcome) + ErrorEntry("Sentiment", e.outcome))
  }

  /** The challenge save depends only on the challenge and strategy tables. */
  lemma {:induction false} ChallengesLocal(t1: Tables, t2: Tables, sessionId: int, cs: seq<ChallengeRecord>)
    requires t1.challenges == t2.challenges && t1.strategies == t2.strategies && t1.down == t2.down
    ensures var s1 := SaveChallengesSpec(t1, sessionId, cs);
      var s2 := SaveChallengesSpec(t2, sessionId, cs);
      s1.outcome == s2.outcome && s1.tables.challenges == s2.tables.challenges && s1.tables.strategies == s2.tables.strategies
    decreases |cs|
  {
    if cs != [] && ChallengeRowOf(sessionId, cs[0]).Ok? && ChallengesTable !in t1.down {
      var row := ChallengeRowOf(sessionId, cs[0]).value;
      var u1 := t1.(challenges := t1.challenges + [row]);
      var u2 := t2.(challenges := t2.challenges + [row]);
      ChallengesLocal(u1, u2, sessionId, cs[1..]);
      var strategies := cs[0].strategies.Get(Some([]));
      if TruthySeq(strategies) {
        var rows := Collect(strategies.value, StrategyRowFor(|u1.challenges|));
        if rows.Ok? {
          ChallengesLocal(u1.(strategies := u1.strategies + rows.value), u2.(strategies := u2.strategies + rows.value), sessionId, cs[1..]);
        }
      }
    }
  }

  /** The marketing save depends only on the activity and outcome tables. */
  lemma {:induction false} MarketingLocal(t1: Tables, t2: Tables, sessionId: int, activities: seq<MarketingRecord>)
    requires t1.activities == t2.activities && t1.outcomes == t2.outcomes && t1.down == t2.down
    ensures var s1 := SaveMarketingSpec(t1, sessionId, activities);
      var s2 := SaveMarketingSpec(t2, sessionId, activities);
      s1.outcome == s2.outcome && s1.tables.activities == s2.tables.activities && s1.tables.outcomes == s2.tables.outcomes
    decreases |activities|
  {
    if activities != [] && ActivityRowOf(sessionId, activities[0]).Ok? && ActivitiesTable !in t1.down {
      var row := ActivityRowOf(sessionId, activities[0]).value;
      var u1 := t1.(activities := t1.activities + [row]);
      var u2 := t2.(activities := t2.activities + [row]);
      MarketingLocal(u1, u2, sessionId, activities[1..]);
      if HasOutcome(activities[0]) {
        var o := OutcomeRowOf(|u1.activities|, activities[0].outcome.value);
        MarketingLocal(u1.(outcomes := u1.outcomes + [o]), u2.(outcomes := u2.outcomes + [o]), sessionId, activities[1..]);
      }
    }
  }

  /** The attendance, goal, stuck and sentiment saves depend only on their own tables. */
  lemma StepsLocal(t1: Tables, t2: Tables, sessionId: int, attendance: seq<AttendanceRecord>, goals: seq<GoalRecord>,
                   stucks: seq<StuckRecord>, sentiment: SentimentRecord)
    requires t1.down == t2.down
    ensures t1.attendance == t2.attendance ==>
      var s1 := AttendanceStep(t1, sessionId, attendance); var s2 := AttendanceStep(t2, sessionId, attendance);
      s1.outcome == s2.outcome && s1.tables.attendance == s2.tables.attendance
    ensures t1.goals == t2.goals ==>
      var s1 := GoalsStep(t1, sessionId, goals); var s2 := GoalsStep(t2, sessionId, goals);
      s1.outcome == s2.outcome && s1.tables.goals == s2.tables.goals
    ensures t1.stucks == t2.stucks ==>
      var s1 := StucksStep(t1, sessionId, stucks); var s2 := StucksStep(t2, sessionId, stucks);
      s1.outcome == s2.outcome && s1.tables.stucks == s2.tables.stucks
    ensures t1.sentiments == t2.sentiments && t1.statements == t2.statements ==>
      var s1 := SentimentStep(t1, sessionId, sentiment); var s2 := SentimentStep(t2, sessionId, sentiment);
      s1.outcome == s2.outcome && s1.tables.sentiments == s2.tables.sentiments && s1.tables.statements == s2.tables.statements
  {
  }

  /** Error isolation: every category ends up exactly as if it had been saved alone on the
      initial tables, whatever the other categories did, and `errors` holds one entry per
      failing category in the order attendance, goals, challenges, marketing, stucks, sentiment. */
  lemma CategoriesIsolated(
    t: Tables, sessionId: int, attendance: seq<AttendanceRecord>, goals: seq<GoalRecord>,
    challenges: seq<ChallengeRecord>, activities: seq<MarketingRecord>, stucks: seq<StuckRecord>,
    sentiment: SentimentRecord)
    ensures var r := SaveSessionExtractionsSpec(t, sessionId, attendance, goals, challenges, activities, stucks, sentiment);
      var a := AttendanceStep(t, sessionId, attendance);
      var g := GoalsStep(t, sessionId, goals);
      var c := ChallengesStep(t, sessionId, challenges);
      var m := MarketingStep(t, sessionId, activities);
      var s := StucksStep(t, sessionId, stucks);
      var e := SentimentStep(t, sessionId, sentiment);
      && r.tables == t.(attendance := a.tables.attendance, goals := g.tables.goals,
                        challenges := c.tables.challenges, strategies := c.tables.strategies,
                        activities := m.tables.activities, outcomes := m.tables.outcomes,
                        stucks := s.tables.stucks,
                        sentiments := e.tables.sentiments, statements := e.tables.statements)
      && r.errors ==
           ErrorEntry("Attendance", a.outcome) + ErrorEntry("Goals", g.outcome) + ErrorEntry("Challenges", c.outcome) +
           ErrorEntry("Marketing", m.outcome) + ErrorEntry("Stucks", s.outcome) + ErrorEntry("Sentiment", e.outcome)
  {
    var a := AttendanceStep(t, sessionId, attendance);
    var g := GoalsStep(a.tables, sessionId, goals);
    var c := ChallengesStep(g.tables, sessionId, challenges);
    var m := MarketingStep(c.tables, sessionId, activities);
    var s := StucksStep(m.tables, sessionId, stucks);
    var e := SentimentStep(s.tables, sessionId, sentiment);
    assert a.tables == t.(attendance := a.tables.attendance);
    assert g.tables == a.tables.(goals := g.tables.goals);
    assert c.tables == g.tables.(challenges := c.tables.challenges, strategies := c.tables.strategies);
    assert m.tables == c.tables.(activities := m.tables.activities, outcomes := m.tables.outcomes);
    assert s.tables == m.tables.(stucks := s.tables.stucks);
    assert e.tables == s.tables.(sentiments := e.tables.sentiments, statements := e.tables.statements);
    StepsLocal(a.tables, t, sessionId, attendance, goals, stucks, sentiment);
    StepsLocal(m.tables, t, sessionId, attendance, goals, stucks, sentiment);
    StepsLocal(s.tables, t, sessionId, attendance, goals, stucks, sentiment);
    if challenges != [] {
      ChallengesLocal(g.tables, t, sessionId, challenges);
    }
    if activities != [] {
      MarketingLocal(c.tables, t, sessionId, activities);
    }
  }

  /** With every input empty or falsy nothing is written and nothing is reported, even when
      every table is down. */
  lemma NothingToSave(t: Tables, sessionId: int)
    ensures SaveSessionExtractionsSpec(t, sessionId, [], [], [], [], [], EmptySentiment) == SavedAll(t, [])
  {
  }
}
