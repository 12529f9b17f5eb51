/** Application constants: the name-matching threshold and the token lists of the
    enumerated storage columns. */
module Constants {

  /** Minimum confidence (0-100) for an automatic name match. */
  const MatchThreshold: int := 80

  const MaxTranscriptLength: int := 100000
  const MinTranscriptLength: int := 50

  const AttendanceStatuses: seq<string> :=
    ["present", "absent_without_updates", "travelling", "family_time", "work_business", "wellness"]

  const GroupMemberRoles: seq<string> := ["facilitator", "participant", "observer"]

  const MarketingStages: seq<string> := ["none_mentioned", "meetings", "proposals", "closed"]

  const MarketingTypes: seq<string> := ["none_mentioned", "network_activation", "linkedin", "cold_outreach"]

  const ContractTypes: seq<string> := ["one_time", "monthly", "hybrid"]

  const RiskCategories: seq<string> := ["high_risk", "medium_risk", "on_track", "intervention", "crushing_it"]
}
