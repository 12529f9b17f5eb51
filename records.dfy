/** The dicts that `save_session_extractions` and its `save_*` helpers receive, one datatype
    per kind of record. Every key is a `Field`, so that a helper's `d[key]` (which raises
    on an absent key) and `d.get(key, default)` are both exact. */
module Records {
  import opened Values

  /** An entry of `attendance`: `{'member_id', 'status', 'notes'}`. */
  datatype AttendanceRecord = AttendanceRecord(memberId: Field<int>, status: Field<string>, notes: Field<string>)

  /** An entry of `goals`: `{'member_id', 'goal', 'is_vague'}`. */
  datatype GoalRecord = GoalRecord(memberId: Field<int>, goal: Field<string>, isVague: Field<bool>)

  /** A strategy of a challenge: `{'suggested_by', 'summary', 'tag'}`. */
  datatype StrategyRecord = StrategyRecord(suggestedBy: Field<int>, summary: Field<string>, tag: Field<string>)

  /** An entry of `challenges`: `{'member_id', 'description', 'category', 'strategies'}`. */
  datatype ChallengeRecord = ChallengeRecord(
    memberId: Field<int>,
    description: Field<string>,
    category: Field<string>,
    strategies: Field<seq<StrategyRecord>>)

  /** The `outcome` dict of a marketing activity. */
  datatype OutcomeRecord = OutcomeRecord(
    noOfMeetings: Field<int>,
    noOfProposals: Field<int>,
    noOfClients: Field<int>,
    notes: Field<string>)
  {
    /** Dict truthiness: a dict is true when it has a key. */
    predicate Truthy() {
      !(noOfMeetings.Missing? && noOfProposals.Missing? && noOfClients.Missing? && notes.Missing?)
    }
  }

  /** `{}`. */
  const EmptyOutcome := OutcomeRecord(Missing, Missing, Missing, Missing)

  /** An entry of `marketing_activities`. */
  datatype MarketingRecord = MarketingRecord(
    memberId: Field<int>,
    stage: Field<string>,
    activity: Field<string>,
    quantity: Field<int>,
    outcome: Field<OutcomeRecord>,
    isWin: Field<bool>,
    contractType: Field<string>,
    revenue: Field<real>)

  /** An entry of `stucks`. */
  datatype StuckRecord = StuckRecord(
    memberId: Field<int>,
    classification: Field<string>,
    stuckSummary: Field<string>,
    exactQuotes: Field<seq<string>>,
    potentialNextStep: Field<string>)

  /** A representative quote of the sentiment dict. */
  datatype QuoteRecord = QuoteRecord(
    memberId: Field<int>,
    emotions: Field<seq<string>>,
    exactQuotes: Field<seq<string>>,
    isNegative: Field<bool>)

  /** The `sentiment` dict; `{}` has every key absent. */
  datatype SentimentRecord = SentimentRecord(
    sentimentScore: Field<int>,
    rationale: Field<string>,
    dominantEmotion: Field<string>,
    confidenceScore: Field<real>,
    representativeQuotes: Field<seq<QuoteRecord>>)
  {
    /** Dict truthiness. */
    predicate Truthy() {
      !(sentimentScore.Missing? && rationale.Missing? && dominantEmotion.Missing? &&
        confidenceScore.Missing? && representativeQuotes.Missing?)
    }
  }

  /** `{}`. */
  const EmptySentiment := SentimentRecord(Missing, Missing, Missing, Missing, Missing)
}
