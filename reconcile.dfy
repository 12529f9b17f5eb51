/** The reconciliation step of the `save_extractions` endpoint (api.py): reviewed extraction
    results are turned into the records the persister stores. Names are resolved to member
    ids by exact lookup in a map built from the group roster, nested per-participant lists
    are flattened, and enumerated text is canonicalised. */
module Reconcile {
  import opened Values
  import opened Text
  import Constants
  import opened Records
  import opened Seqs
  import NameMatching

  // ---------------------------------------------------------------- enum normalisation

  /** `normalize_enum_value`: `'none_mentioned'` for a falsy value, otherwise the value
      lower-cased with every space and slash turned into an underscore. */
  function NormalizeEnum(value: Option<string>): (r: string)
    ensures r != [] && ' ' !in r && '/' !in r
    ensures !TruthyStr(value) ==> r == "none_mentioned"
    ensures TruthyStr(value) ==>
      |r| == |value.value| &&
      forall i :: 0 <= i < |r| ==> r[i] == if value.value[i] == ' ' || value.value[i] == '/' then '_' else LowerChar(value.value[i])
  {
    if !TruthyStr(value) then "none_mentioned"
    else ReplaceChar(ReplaceChar(Lower(value.value), ' ', '_'), '/', '_')
  }

  /** Normalising a normalised value changes nothing. */
  lemma NormalizeIdempotent(value: Option<string>)
    ensures NormalizeEnum(Some(NormalizeEnum(value))) == NormalizeEnum(value)
  {
    var r := NormalizeEnum(value);
    var s := NormalizeEnum(Some(r));
    assert TruthyStr(Some(r));
    forall i | 0 <= i < |r| ensures s[i] == r[i] {
      if TruthyStr(value) {
        var c := value.value[i];
        assert r[i] == '_' || !IsUpperLetter(r[i]);
      } else {
        assert r[i] in "none_mentioned";
      }
    }
  }

  /** The normal form of a value, character by character. */
  lemma NormalizeChars(s: string, t: string)
    requires s != [] && |t| == |s|
    requires forall i :: 0 <= i < |s| ==> t[i] == if s[i] == ' ' || s[i] == '/' then '_' else LowerChar(s[i])
    ensures NormalizeEnum(Some(s)) == t
  {
  }

  lemma NormalizeAbsent()
    ensures NormalizeEnum(Some("Absent without updates")) == Constants.AttendanceStatuses[1]
  {
    NormalizeChars("Absent without updates", Constants.AttendanceStatuses[1]);
  }

  lemma NormalizeFamilyTime()
    ensures NormalizeEnum(Some("family time")) == Constants.AttendanceStatuses[3]
  {
    NormalizeChars("family time", Constants.AttendanceStatuses[3]);
  }

  lemma NormalizeWorkBusiness()
    ensures NormalizeEnum(Some("work/business")) == Constants.AttendanceStatuses[4]
  {
    NormalizeChars("work/business", Constants.AttendanceStatuses[4]);
  }

  lemma NormalizeNetworkActivation()
    ensures NormalizeEnum(Some("Network Activation")) == Constants.MarketingTypes[1]
  {
    NormalizeChars("Network Activation", Constants.MarketingTypes[1]);
  }

  lemma NormalizePresent()
    ensures NormalizeEnum(Some("present")) == Constants.AttendanceStatuses[0]
  {
    NormalizeChars("present", Constants.AttendanceStatuses[0]);
  }

  lemma NormalizeTravelling()
    ensures NormalizeEnum(Some("travelling")) == Constants.AttendanceStatuses[2]
  {
    NormalizeChars("travelling", Constants.AttendanceStatuses[2]);
  }

  lemma NormalizeWellness()
    ensures NormalizeEnum(Some("wellness")) == Constants.AttendanceStatuses[5]
  {
    NormalizeChars("wellness", Constants.AttendanceStatuses[5]);
  }

  lemma NormalizeClosed()
    ensures NormalizeEnum(Some("closed")) == Constants.MarketingStages[3]
  {
    NormalizeChars("closed", Constants.MarketingStages[3]);
  }

  lemma NormalizeProposals()
    ensures NormalizeEnum(Some("proposals")) == Constants.MarketingStages[2]
  {
    NormalizeChars("proposals", Constants.MarketingStages[2]);
  }

  lemma NormalizeMeetings()
    ensures NormalizeEnum(Some("meetings")) == Constants.MarketingStages[1]
  {
    NormalizeChars("meetings", Constants.MarketingStages[1]);
  }

  lemma NormalizeLinkedin()
    ensures NormalizeEnum(Some("linkedin")) == Constants.MarketingTypes[2]
  {
    NormalizeChars("linkedin", Constants.MarketingTypes[2]);
  }

  lemma NormalizeColdOutreach()
    ensures NormalizeEnum(Some("cold_outreach")) == Constants.MarketingTypes[3]
  {
    NormalizeChars("cold_outreach", Constants.MarketingTypes[3]);
  }

  lemma NormalizeNoneMentioned()
    ensures NormalizeEnum(Some("none_mentioned")) == Constants.MarketingTypes[0]
  {
    NormalizeChars("none_mentioned", Constants.MarketingTypes[0]);
  }

  lemma NormalizeMonthly()
    ensures NormalizeEnum(Some("monthly")) == Constants.ContractTypes[1]
  {
    NormalizeChars("monthly", Constants.ContractTypes[1]);
  }

  lemma NormalizeOneTime()
    ensures NormalizeEnum(Some("one_time")) == Constants.ContractTypes[0]
  {
    NormalizeChars("one_time", Constants.ContractTypes[0]);
  }

  lemma NormalizeHybrid()
    ensures NormalizeEnum(Some("hybrid")) == Constants.ContractTypes[2]
  {
    NormalizeChars("hybrid", Constants.ContractTypes[2]);
  }

  /** Every attendance status the extraction produces (`"present"`, `"Absent without updates"`,
      `"travelling"`, `"family time"`, `"work/business"`, `"wellness"`) normalises to the valid
      attendance status at the same position of the status list; `"present"`, the default
      for an absent key, stays itself. */
  lemma AttendanceEnumNormalises()
    ensures NormalizeEnum(Some("present")) == Constants.AttendanceStatuses[0]
    ensures NormalizeEnum(Some("Absent without updates")) == Constants.AttendanceStatuses[1]
    ensures NormalizeEnum(Some("travelling")) == Constants.AttendanceStatuses[2]
    ensures NormalizeEnum(Some("family time")) == Constants.AttendanceStatuses[3]
    ensures NormalizeEnum(Some("work/business")) == Constants.AttendanceStatuses[4]
    ensures NormalizeEnum(Some("wellness")) == Constants.AttendanceStatuses[5]
  {
    NormalizePresent();
    NormalizeAbsent();
    NormalizeTravelling();
    NormalizeFamilyTime();
    NormalizeWorkBusiness();
    NormalizeWellness();
  }

  /** An empty or null status becomes `'none_mentioned'`, which is not an attendance status. */
  lemma EmptyStatusIsNotAStatus()
    ensures NormalizeEnum(Some("")) == NormalizeEnum(None) == "none_mentioned"
    ensures "none_mentioned" !in Constants.AttendanceStatuses
  {
  }

  /** Every marketing stage, activity type and contract type the extraction produces, and
      the sentinel for a missing one, normalises into the stored token lists. */
  lemma MarketingEnumNormalises()
    ensures NormalizeEnum(None) == Constants.MarketingStages[0] == Constants.MarketingTypes[0]
    ensures NormalizeEnum(Some("meetings")) == Constants.MarketingStages[1]
    ensures NormalizeEnum(Some("proposals")) == Constants.MarketingStages[2]
    ensures NormalizeEnum(Some("closed")) == Constants.MarketingStages[3]
    ensures NormalizeEnum(Some("none_mentioned")) == Constants.MarketingTypes[0]
    ensures NormalizeEnum(Some("Network Activation")) == Constants.MarketingTypes[1]
    ensures NormalizeEnum(Some("linkedin")) == Constants.MarketingTypes[2]
    ensures NormalizeEnum(Some("cold_outreach")) == Constants.MarketingTypes[3]
    ensures NormalizeEnum(Some("one_time")) == Constants.ContractTypes[0]
    ensures NormalizeEnum(Some("monthly")) == Constants.ContractTypes[1]
    ensures NormalizeEnum(Some("hybrid")) == Constants.ContractTypes[2]
  {
    NormalizeClosed();
    NormalizeProposals();
    NormalizeMeetings();
    NormalizeNetworkActivation();
    NormalizeLinkedin();
    NormalizeColdOutreach();
    NormalizeNoneMentioned();
    NormalizeMonthly();
    NormalizeOneTime();
    NormalizeHybrid();
  }

  // ---------------------------------------------------------------- name -> id

  /** The `name_to_id` dict: each roster name mapped to an id, a later entry overwriting an
      earlier one with the same name. */
  function NameToId(roster: seq<NameMatching.Member>): (m: map<string, int>)
    ensures m.Keys == set i | 0 <= i < |roster| :: roster[i].name
  {
    if roster == [] then map[]
    else NameToId(roster[..|roster| - 1])[roster[|roster| - 1].name := roster[|roster| - 1].id]
  }

  /** The id a name maps to is that of the last roster entry carrying the name. */
  lemma {:induction false} NameToIdLastWins(roster: seq<NameMatching.Member>, name: string)
    requires name in NameToId(roster)
    ensures exists i ::
      0 <= i < |roster| && roster[i].name == name && roster[i].id == NameToId(roster)[name] &&
      forall j :: i < j < |roster| ==> roster[j].name != name
    decreases |roster|
  {
    var n := |roster| - 1;
    var init := roster[..n];
    if roster[n].name == name {
      assert NameToId(roster)[name] == roster[n].id;
    } else {
      assert NameToId(roster)[name] == NameToId(init)[name];
      NameToIdLastWins(init, name);
      var i :| 0 <= i < |init| && init[i].name == name && init[i].id == NameToId(init)[name] &&
        forall j :: i < j < |init| ==> init[j].name != name;
      assert roster[i] == init[i];
      forall j | i < j < |roster| ensures roster[j].name != name {
        if j < n { assert roster[j] == init[j]; }
      }
    }
  }

  /** The loop that fills `name_to_id`. */
  method BuildNameToId(roster: seq<NameMatching.Member>) returns (m: map<string, int>)
    ensures m == NameToId(roster)
  {
    m := map[];
    for i := 0 to |roster|
      invariant m == NameToId(roster[..i])
    {
      assert roster[..i + 1][..i] == roster[..i];
      m := m[roster[i].name := roster[i].id];
    }
    assert roster[..|roster|] == roster;
  }

  /** `member_name and member_name in name_to_id`, and the id then looked up. */
  function Resolve(name: Option<string>, m: map<string, int>): (id: Option<int>)
    ensures id.Some? <==> TruthyStr(name) && name.value in m
    ensures id.Some? ==> id == Some(m[name.value])
  {
    if TruthyStr(name) && name.value in m then Some(m[name.value]) else None
  }

  /** A resolved id belongs to a roster member carrying the name, the last such member. */
  lemma ResolvedIsRosterId(roster: seq<NameMatching.Member>, name: Option<string>)
    requires Resolve(name, NameToId(roster)).Some?
    ensures exists i ::
      0 <= i < |roster| && roster[i].name == name.value &&
      Resolve(name, NameToId(roster)) == Some(roster[i].id) &&
      forall j :: i < j < |roster| ==> roster[j].name != name.value
  {
    NameToIdLastWins(roster, name.value);
  }

  // ---------------------------------------------------------------- attendance

  /** An attendance record as the review screen sends it back. */
  datatype ReviewedAttendance = ReviewedAttendance(matchedMemberId: Field<int>, status: Field<string>, notes: Field<string>)

  /** One iteration of the attendance loop: kept iff `matched_member_id` is truthy. */
  function AttendanceShape(r: ReviewedAttendance): (o: Option<AttendanceRecord>)
    ensures o.Some? <==> TruthyInt(r.matchedMemberId.Raw())
    ensures o.Some? ==> o.value.memberId == r.matchedMemberId && o.value.notes == Written(r.notes.Raw())
    ensures o.Some? ==> o.value.status == Val(NormalizeEnum(r.status.Get(Some("present"))))
  {
    if TruthyInt(r.matchedMemberId.Raw()) then
      Some(AttendanceRecord(r.matchedMemberId, Val(NormalizeEnum(r.status.Get(Some("present")))), Written(r.notes.Raw())))
    else None
  }

  /** An absent status is stored as `'present'`; a null or empty one as `'none_mentioned'`. */
  lemma AttendanceStatusDefaults(r: ReviewedAttendance)
    requires TruthyInt(r.matchedMemberId.Raw())
    ensures r.status.Missing? ==> AttendanceShape(r).value.status == Val("present")
    ensures !TruthyStr(r.status.Raw()) && !r.status.Missing? ==> AttendanceShape(r).value.status == Val("none_mentioned")
  {
    NormalizePresent();
  }

  /** The attendance list handed to the persister. */
  function ReconciledAttendance(raw: seq<ReviewedAttendance>): seq<AttendanceRecord> {
    FilterMap(raw, AttendanceShape)
  }

  method ReconcileAttendance(raw: seq<ReviewedAttendance>) returns (out: seq<AttendanceRecord>)
    ensures out == ReconciledAttendance(raw)
  {
    out := [];
    for i := 0 to |raw|
      invariant out == ReconciledAttendance(raw[..i])
    {
      assert raw[..i + 1][..i] == raw[..i];
      var o := AttendanceShape(raw[i]);
      if o.Some? {
        out := out + [o.value];
      }
    }
    assert raw[..|raw|] == raw;
  }

  // ---------------------------------------------------------------- goals

  /** One iteration of the goals loop. */
  function GoalShape(g: NameMatching.GoalExtract, m: map<string, int>): (o: Option<GoalRecord>)
    ensures o.Some? <==> Resolve(g.name.Raw(), m).Some?
    ensures o.Some? ==> o.value.memberId == Val(m[g.name.value])
    ensures o.Some? ==>
      o.value.goal == Written(g.quantifiableGoal.Get(Some(""))) &&
      o.value.isVague == Written(g.isVague.Get(Some(false)))
  {
    match Resolve(g.name.Raw(), m)
    case Some(id) => Some(GoalRecord(Val(id), Written(g.quantifiableGoal.Get(Some(""))), Written(g.isVague.Get(Some(false)))))
    case None => None
  }

  /** The goals list handed to the persister. */
  function ReconciledGoals(raw: seq<NameMatching.GoalExtract>, m: map<string, int>): seq<GoalRecord> {
    FilterMap(raw, g => GoalShape(g, m))
  }

  method ReconcileGoals(raw: seq<NameMatching.GoalExtract>, m: map<string, int>) returns (out: seq<GoalRecord>)
    ensures out == ReconciledGoals(raw, m)
  {
    out := [];
    for i := 0 to |raw|
      invariant out == ReconciledGoals(raw[..i], m)
    {
      assert raw[..i + 1][..i] == raw[..i];
      var o := GoalShape(raw[i], m);
      if o.Some? {
        out := out + [o.value];
      }
    }
    assert raw[..|raw|] == raw;
  }

  /** A goal is kept iff its name is a key of the map, and every kept goal carries the id of
      a resolved goal's name. */
  lemma GoalsKeptIffResolved(raw: seq<NameMatching.GoalExtract>, m: map<string, int>)
    ensures forall i :: 0 <= i < |raw| && Resolve(raw[i].name.Raw(), m).Some? ==>
      GoalShape(raw[i], m).value in ReconciledGoals(raw, m)
    ensures forall k :: 0 <= k < |ReconciledGoals(raw, m)| ==>
      exists i :: 0 <= i < |raw| && Resolve(raw[i].name.Raw(), m).Some? &&
        ReconciledGoals(raw, m)[k].memberId == Val(Resolve(raw[i].name.Raw(), m).value)
  {
    var f := g => GoalShape(g, m);
    var kept := ReconciledGoals(raw, m);
    assert kept == FilterMap(raw, f);
    forall i | 0 <= i < |raw| && Resolve(raw[i].name.Raw(), m).Some?
      ensures GoalShape(raw[i], m).value in kept
    {
      FilterMapComplete(raw, f, i);
    }
    forall k | 0 <= k < |ReconciledGoals(raw, m)|
      ensures exists i ::
        0 <= i < |raw| && Resolve(raw[i].name.Raw(), m).Some? &&
        ReconciledGoals(raw, m)[k].memberId == Val(Resolve(raw[i].name.Raw(), m).value)
    {
      FilterMapSound(raw, f, k);
      var i :| 0 <= i < |raw| && f(raw[i]) == Some(kept[k]);
      assert GoalShape(raw[i], m) == Some(kept[k]);
    }
  }

  // ---------------------------------------------------------------- challenges

  /** A strategy as extracted: who suggested it, a summary and a tag. */
  datatype StrategyExtract = StrategyExtract(name: Field<string>, summary: Field<string>, tag: Field<string>)

  /** A challenge as extracted; `strategies` is `None` when the key is absent. */
  datatype ChallengeExtract = ChallengeExtract(challenge: Field<string>, category: Field<string>, strategies: Option<seq<StrategyExtract>>)

  /** One participant's challenges; `challenges` is `None` when the key is absent. */
  datatype IndividualChallenges = IndividualChallenges(name: Field<string>, challenges: Option<seq<ChallengeExtract>>)

  /** `strategy_copy`: `suggested_by` is resolved from the strategy's own name, the name key is
      dropped, and the other keys are copied unchanged. */
  function StrategyShape(s: StrategyExtract, m: map<string, int>): (r: StrategyRecord)
    ensures r.suggestedBy == Written(Resolve(s.name.Raw(), m))
    ensures r.summary == s.summary && r.tag == s.tag
  {
    StrategyRecord(Written(Resolve(s.name.Raw(), m)), s.summary, s.tag)
  }

  /** The strategies of one challenge, in order. */
  function StrategyList(ss: seq<StrategyExtract>, m: map<string, int>): (r: seq<StrategyRecord>)
    ensures |r| == |ss| && forall k :: 0 <= k < |ss| ==> r[k] == StrategyShape(ss[k], m)
  {
    if ss == [] then [] else StrategyList(ss[..|ss| - 1], m) + [StrategyShape(ss[|ss| - 1], m)]
  }

  /** The record appended for one challenge of the participant with id `memberId`. */
  function ChallengeShape(c: ChallengeExtract, memberId: int, m: map<string, int>): (r: ChallengeRecord)
    ensures r.memberId == Val(memberId)
    ensures r.description == Written(c.challenge.Get(Some(""))) && r.category == Written(c.category.Get(Some("")))
    ensures r.strategies == Val(StrategyList(c.strategies.GetOr([]), m))
  {
    ChallengeRecord(Val(memberId), Written(c.challenge.Get(Some(""))), Written(c.category.Get(Some(""))),
      Val(StrategyList(c.strategies.GetOr([]), m)))
  }

  /** The challenges of a list of challenges, for one participant. */
  function ChallengeList(cs: seq<ChallengeExtract>, memberId: int, m: map<string, int>): (r: seq<ChallengeRecord>)
    ensures |r| == |cs| && forall k :: 0 <= k < |cs| ==> r[k] == ChallengeShape(cs[k], memberId, m)
  {
    if cs == [] then [] else ChallengeList(cs[..|cs| - 1], memberId, m) + [ChallengeShape(cs[|cs| - 1], memberId, m)]
  }

  /** What one participant contributes: one record per challenge when the name resolves,
      nothing otherwise. */
  function ParticipantChallenges(ind: IndividualChallenges, m: map<string, int>): (r: seq<ChallengeRecord>)
    ensures Resolve(ind.name.Raw(), m).None? ==> r == []
    ensures Resolve(ind.name.Raw(), m).Some? ==> r == ChallengeList(ind.challenges.GetOr([]), m[ind.name.value], m)
  {
    match Resolve(ind.name.Raw(), m)
    case Some(id) => ChallengeList(ind.challenges.GetOr([]), id, m)
    case None => []
  }

  /** The challenges list handed to the persister. */
  function ReconciledChallenges(raw: seq<IndividualChallenges>, m: map<string, int>): seq<ChallengeRecord> {
    FlatMap(raw, ind => ParticipantChallenges(ind, m))
  }

  /** The nested loops that flatten participants, challenges and strategies. */
  method ReconcileChallenges(raw: seq<IndividualChallenges>, m: map<string, int>) returns (out: seq<ChallengeRecord>)
    ensures out == ReconciledChallenges(raw, m)
  {
    out := [];
    for i := 0 to |raw|
      invariant out == ReconciledChallenges(raw[..i], m)
    {
      assert raw[..i + 1][..i] == raw[..i];
      var id := Resolve(raw[i].name.Raw(), m);
      if id.Some? {
        var challenges := BuildChallengeList(raw[i].challenges.GetOr([]), id.value, m);
        out := out + challenges;
      }
    }
    assert raw[..|raw|] == raw;
  }

  /** The middle loop: one record per challenge of a participant. */
  method BuildChallengeList(cs: seq<ChallengeExtract>, memberId: int, m: map<string, int>) returns (out: seq<ChallengeRecord>)
    ensures out == ChallengeList(cs, memberId, m)
  {
    out := [];
    for j := 0 to |cs|
      invariant out == ChallengeList(cs[..j], memberId, m)
    {
      ChallengeListStep(cs, j, memberId, m);
      var strategies := BuildStrategyList(cs[j].strategies.GetOr([]), m);
      out := out + [ChallengeRecord(Val(memberId), Written(cs[j].challenge.Get(Some(""))),
        Written(cs[j].category.Get(Some(""))), Val(strategies))];
    }
    assert cs[..|cs|] == cs;
  }

  lemma ChallengeListStep(cs: seq<ChallengeExtract>, j: nat, memberId: int, m: map<string, int>)
    requires j < |cs|
    ensures ChallengeList(cs[..j + 1], memberId, m) == ChallengeList(cs[..j], memberId, m) + [ChallengeShape(cs[j], memberId, m)]
  {
    assert cs[..j + 1][..j] == cs[..j];
  }

  /** The innermost loop: one record per strategy, its author's name resolved. */
  method BuildStrategyList(ss: seq<StrategyExtract>, m: map<string, int>) returns (strategies: seq<StrategyRecord>)
    ensures strategies == StrategyList(ss, m)
  {
    strategies := [];
    for k := 0 to |ss|
      invariant strategies == StrategyList(ss[..k], m)
    {
      assert ss[..k + 1][..k] == ss[..k];
      var suggestedBy := Resolve(ss[k].name.Raw(), m);
      strategies := strategies + [StrategyRecord(Written(suggestedBy), ss[k].summary, ss[k].tag)];
    }
    assert ss[..|ss|] == ss;
  }

  /** Every flattened challenge belongs to a participant whose name resolved to its
      `member_id`, and its strategies' `suggested_by` depend only on their own names. */
  lemma ChallengeOwners(raw: seq<IndividualChallenges>, m: map<string, int>, k: nat)
    requires k < |ReconciledChallenges(raw, m)|
    ensures var c := ReconciledChallenges(raw, m)[k];
      exists i, id :: 0 <= i < |raw| && Resolve(raw[i].name.Raw(), m) == Some(id) && c.memberId == Val(id) &&
        c in ChallengeList(raw[i].challenges.GetOr([]), id, m)
  {
    var f := ind => ParticipantChallenges(ind, m);
    FlatMapSound(raw, f, k);
  }

  // ---------------------------------------------------------------- marketing

  /** A marketing activity as extracted. The extraction spells the quantity key
      `quanitity`; a correctly spelt `quantity` key is carried too, and ignored. */
  datatype ActivityExtract = ActivityExtract(
    stage: Field<string>,
    activity: Field<string>,
    quanitity: Field<int>,
    quantity: Field<int>,
    outcome: Field<OutcomeRecord>,
    isWin: Field<bool>,
    contractType: Field<string>,
    revenue: Field<real>)

  /** One participant's activities; `activities` is `None` when the key is absent. */
  datatype IndividualMarketing = IndividualMarketing(name: Field<string>, activities: Option<seq<ActivityExtract>>)

  /** The record appended for one activity of the participant with id `memberId`. */
  function ActivityShape(a: ActivityExtract, memberId: int): (r: MarketingRecord)
    ensures r.memberId == Val(memberId)
    ensures r.stage == Val(NormalizeEnum(a.stage.Get(Some("")))) && r.activity == Val(NormalizeEnum(a.activity.Get(Some(""))))
    ensures r.quantity == Written(a.quanitity.Get(Some(0)))
    ensures r.outcome == Written(a.outcome.Get(Some(EmptyOutcome)))
    ensures r.isWin == Written(a.isWin.Get(Some(false)))
    ensures r.contractType == if TruthyStr(a.contractType.Raw()) then Val(NormalizeEnum(a.contractType.Raw())) else Null
    ensures r.revenue == Written(a.revenue.Raw())
  {
    MarketingRecord(
      Val(memberId),
      Val(NormalizeEnum(a.stage.Get(Some("")))),
      Val(NormalizeEnum(a.activity.Get(Some("")))),
      Written(a.quanitity.Get(Some(0))),
      Written(a.outcome.Get(Some(EmptyOutcome))),
      Written(a.isWin.Get(Some(false))),
      if TruthyStr(a.contractType.Raw()) then Val(NormalizeEnum(a.contractType.Raw())) else Null,
      Written(a.revenue.Raw()))
  }

  /** The stored quantity ignores a correctly spelt `quantity` key. */
  lemma QuantityKeyIgnored(a: ActivityExtract, q: Field<int>, memberId: int)
    ensures ActivityShape(a.(quantity := q), memberId) == ActivityShape(a, memberId)
    ensures a.quanitity.Missing? ==> ActivityShape(a, memberId).quantity == Val(0)
  {
  }

  function ActivityList(activities: seq<ActivityExtract>, memberId: int): (r: seq<MarketingRecord>)
    ensures |r| == |activities| && forall k :: 0 <= k < |activities| ==> r[k] == ActivityShape(activities[k], memberId)
  {
    if activities == [] then [] else ActivityList(activities[..|activities| - 1], memberId) + [ActivityShape(activities[|activities| - 1], memberId)]
  }

  function ParticipantActivities(ind: IndividualMarketing, m: map<string, int>): (r: seq<MarketingRecord>)
    ensures Resolve(ind.name.Raw(), m).None? ==> r == []
    ensures Resolve(ind.name.Raw(), m).Some? ==> r == ActivityList(ind.activities.GetOr([]), m[ind.name.value])
  {
    match Resolve(ind.name.Raw(), m)
    case Some(id) => ActivityList(ind.activities.GetOr([]), id)
    case None => []
  }

  /** The marketing activities list handed to the persister. */
  function ReconciledMarketing(raw: seq<IndividualMarketing>, m: map<string, int>): seq<MarketingRecord> {
    FlatMap(raw, ind => ParticipantActivities(ind, m))
  }

  method ReconcileMarketing(raw: seq<IndividualMarketing>, m: map<string, int>) returns (out: seq<MarketingRecord>)
    ensures out == ReconciledMarketing(raw, m)
  {
    out := [];
    for i := 0 to |raw|
      invariant out == ReconciledMarketing(raw[..i], m)
    {
      assert raw[..i + 1][..i] == raw[..i];
      var id := Resolve(raw[i].name.Raw(), m);
      if id.Some? {
        var added := BuildActivityList(raw[i].activities.GetOr([]), id.value);
        out := out + added;
      }
    }
    assert raw[..|raw|] == raw;
  }

  /** The inner loop over one participant's activities. */
  method BuildActivityList(activities: seq<ActivityExtract>, memberId: int) returns (added: seq<MarketingRecord>)
    ensures added == ActivityList(activities, memberId)
  {
    added := [];
    for j := 0 to |activities|
      invariant added == ActivityList(activities[..j], memberId)
    {
      assert activities[..j + 1][..j] == activities[..j];
      added := added + [ActivityShape(activities[j], memberId)];
    }
    assert activities[..|activities|] == activities;
  }

  // ---------------------------------------------------------------- stuck detections

  datatype StuckExtract = StuckExtract(
    name: Field<string>,
    classification: Field<string>,
    stuckSummary: Field<string>,
    exactQuotes: Field<seq<string>>,
    potentialNextStep: Field<string>)

  function StuckShape(s: StuckExtract, m: map<string, int>): (o: Option<StuckRecord>)
    ensures o.Some? <==> Resolve(s.name.Raw(), m).Some?
    ensures o.Some? ==> o.value.memberId == Val(m[s.name.value])
    ensures o.Some? ==>
      o.value.classification == Written(s.classification.Get(Some(""))) &&
      o.value.stuckSummary == Written(s.stuckSummary.Get(Some(""))) &&
      o.value.exactQuotes == Written(s.exactQuotes.Get(Some([]))) &&
      o.value.potentialNextStep == Written(s.potentialNextStep.Get(Some("")))
  {
    match Resolve(s.name.Raw(), m)
    case Some(id) =>
      Some(StuckRecord(Val(id), Written(s.classification.Get(Some(""))), Written(s.stuckSummary.Get(Some(""))),
        Written(s.exactQuotes.Get(Some([]))), Written(s.potentialNextStep.Get(Some("")))))
    case None => None
  }

  /** The stuck detections list handed to the persister. */
  function ReconciledStucks(raw: seq<StuckExtract>, m: map<string, int>): seq<StuckRecord> {
    FilterMap(raw, s => StuckShape(s, m))
  }

  method ReconcileStucks(raw: seq<StuckExtract>, m: map<string, int>) returns (out: seq<StuckRecord>)
    ensures out == ReconciledStucks(raw, m)
  {
    out := [];
    for i := 0 to |raw|
      invariant out == ReconciledStucks(raw[..i], m)
    {
      assert raw[..i + 1][..i] == raw[..i];
      var o := StuckShape(raw[i], m);
      if o.Some? {
        out := out + [o.value];
      }
    }
    assert raw[..|raw|] == raw;
  }

  // ---------------------------------------------------------------- sentiment

  datatype QuoteExtract = QuoteExtract(
    name: Field<string>,
    emotion: Field<seq<string>>,
    exactQuotes: Field<seq<string>>,
    isNegative: Field<bool>)

  /** The extracted sentiment dict; `representativeQuotes` is `None` when the key is absent. */
  datatype SentimentExtract = SentimentExtract(
    sentimentScore: Field<int>,
    rationale: Field<string>,
    dominantEmotion: Field<string>,
    confidenceScore: Field<real>,
    representativeQuotes: Option<seq<QuoteExtract>>)
  {
    /** Dict truthiness. */
    predicate Truthy() {
      !(sentimentScore.Missing? && rationale.Missing? && dominantEmotion.Missing? &&
        confidenceScore.Missing? && representativeQuotes.None?)
    }
  }

  /** A quote is kept iff its name resolves; the extracted `emotion` key is stored as `emotions`. */
  function QuoteShape(q: QuoteExtract, m: map<string, int>): (o: Option<QuoteRecord>)
    ensures o.Some? <==> Resolve(q.name.Raw(), m).Some?
    ensures o.Some? ==> o.value.memberId == Val(m[q.name.value])
    ensures o.Some? ==>
      o.value.emotions == Written(q.emotion.Get(Some([]))) &&
      o.value.exactQuotes == Written(q.exactQuotes.Get(Some([]))) &&
      o.value.isNegative == Written(q.isNegative.Get(Some(false)))
  {
    match Resolve(q.name.Raw(), m)
    case Some(id) =>
      Some(QuoteRecord(Val(id), Written(q.emotion.Get(Some([]))), Written(q.exactQuotes.Get(Some([]))),
        Written(q.isNegative.Get(Some(false)))))
    case None => None
  }

  /** The representative quotes kept in the sentiment dict. */
  function ReconciledQuotes(qs: seq<QuoteExtract>, m: map<string, int>): seq<QuoteRecord> {
    FilterMap(qs, q => QuoteShape(q, m))
  }

  /** The sentiment dict handed to the persister: `{}` for a falsy extraction, otherwise all
      five keys with their defaults. */
  method ReconcileSentiment(raw: SentimentExtract, m: map<string, int>) returns (out: SentimentRecord)
    ensures !raw.Truthy() ==> out == EmptySentiment
    ensures raw.Truthy() ==> out == SentimentRecord(
      Written(raw.sentimentScore.Get(Some(3))),
      Written(raw.rationale.Get(Some(""))),
      Written(raw.dominantEmotion.Get(Some(""))),
      Written(raw.confidenceScore.Get(Some(0.5))),
      Val(ReconciledQuotes(raw.representativeQuotes.GetOr([]), m)))
    ensures out.Truthy() <==> raw.Truthy()
  {
    out := EmptySentiment;
    if raw.Truthy() {
      var qs := raw.representativeQuotes.GetOr([]);
      var quotes := [];
      for i := 0 to |qs|
        invariant quotes == ReconciledQuotes(qs[..i], m)
      {
        assert qs[..i + 1][..i] == qs[..i];
        var o := QuoteShape(qs[i], m);
        if o.Some? {
          quotes := quotes + [o.value];
        }
      }
      assert qs[..|qs|] == qs;
      out := SentimentRecord(
        Written(raw.sentimentScore.Get(Some(3))),
        Written(raw.rationale.Get(Some(""))),
        Written(raw.dominantEmotion.Get(Some(""))),
        Written(raw.confidenceScore.Get(Some(0.5))),
        Val(quotes));
    }
  }

  // ---------------------------------------------------------------- the whole block

  /** The reviewed extraction results; every list is `None` when its key (or the enclosing
      dict's key) is absent. */
  datatype ExtractionResults = ExtractionResults(
    attendance: Option<seq<ReviewedAttendance>>,
    goals: Option<seq<NameMatching.GoalExtract>>,
    challenges: Option<seq<IndividualChallenges>>,
    marketing: Option<seq<IndividualMarketing>>,
    stucks: Option<seq<StuckExtract>>,
    sentiment: SentimentExtract)

  /** The six arguments passed on to `save_session_extractions`. */
  datatype Reconciled = Reconciled(
    attendance: seq<AttendanceRecord>,
    goals: seq<GoalRecord>,
    challenges: seq<ChallengeRecord>,
    marketing: seq<MarketingRecord>,
    stucks: seq<StuckRecord>,
    sentiment: SentimentRecord)

  /** Lines 669-780 of the endpoint: the name map, then each category in turn. */
  method ReconcileExtractions(roster: seq<NameMatching.Member>, x: ExtractionResults) returns (r: Reconciled)
    ensures var m := NameToId(roster);
      r.attendance == ReconciledAttendance(x.attendance.GetOr([])) &&
      r.goals == ReconciledGoals(x.goals.GetOr([]), m) &&
      r.challenges == ReconciledChallenges(x.challenges.GetOr([]), m) &&
      r.marketing == ReconciledMarketing(x.marketing.GetOr([]), m) &&
      r.stucks == ReconciledStucks(x.stucks.GetOr([]), m)
    ensures r.sentiment.Truthy() <==> x.sentiment.Truthy()
  {
    var m := BuildNameToId(roster);
    var attendance := ReconcileAttendance(x.attendance.GetOr([]));
    var goals := ReconcileGoals(x.goals.GetOr([]), m);
    var challenges := ReconcileChallenges(x.challenges.GetOr([]), m);
    var marketing := ReconcileMarketing(x.marketing.GetOr([]), m);
    var stucks := ReconcileStucks(x.stucks.GetOr([]), m);
    var sentiment := ReconcileSentiment(x.sentiment, m);
    r := Reconciled(attendance, goals, challenges, marketing, stucks, sentiment);
  }

  /** With an empty roster no name resolves, so every name-keyed category is empty. */
  lemma EmptyRosterKeepsNothing(x: ExtractionResults)
    ensures ReconciledGoals(x.goals.GetOr([]), NameToId([])) == []
    ensures ReconciledChallenges(x.challenges.GetOr([]), NameToId([])) == []
    ensures ReconciledStucks(x.stucks.GetOr([]), NameToId([])) == []
  {
    var m := NameToId([]);
    FilterMapNone(x.goals.GetOr([]), g => GoalShape(g, m));
    FilterMapNone(x.stucks.GetOr([]), s => StuckShape(s, m));
    FlatMapEmpty(x.challenges.GetOr([]), ind => ParticipantChallenges(ind, m));
  }
}
