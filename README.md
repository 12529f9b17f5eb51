# Owners Up session pipeline — a Dafny model

Owners Up runs facilitated peer groups of business owners. A facilitator uploads the transcript
of a group session. Language-model extractors pull out attendance, weekly goals, challenges with
suggested strategies, marketing activities, "stuck" detections and the session's sentiment. A
facilitator confirms the names the extractors found against the group roster. The reviewed results
are then reconciled into database records and saved table by table. A group analytics view
rates every member's risk from what was saved.

This project models that core:

- `values.dfy`, `text.dfy`, `constants.dfy`: the shared vocabulary. A dictionary key is a
  `Field` that is missing, null or holds a value. There are Python's whitespace, lower-casing,
  `split()`, `strip()` and thousands separators, and the status and category lists of the
  configuration.
- `validators.dfy` (module `Validators`): the field validators and the two string transforms of
  `utils/validators.py`.
- `name_matching.dfy` (module `NameMatching`): fuzzy matching of extracted names to roster
  members (`utils/name_matching.py`). The fuzzy scorer is a parameter.
- `records.dfy`, `reconcile.dfy` (module `Reconcile`): the record dictionaries handed to the
  database layer, and the reconciliation block of the save-extractions endpoint in `api.py`.
  That block builds the name-to-id map, normalises enum text, flattens the per-participant
  lists and drops unresolved names.
- `persistence.dfy` (module `Persistence`): each saver of `db/operations` as a function from the
  tables before to the tables after plus an outcome (done, or failed with the exception text).
  The lemmas about those functions live here too.
- `database.dfy` (module `Storage`): class `Database`, with one field per table. The savers and
  updaters are methods on it. Each saver is proved to change the store exactly as its
  `Persistence` function says.
- `session_helpers.dfy` (module `SessionHelpers`): the duration estimate, summary counts,
  completeness check and group-by-member view of `utils/session_helpers.py`.
- `analytics.dfy` (module `GroupAnalytics`): the per-member risk score and risk level of the
  group analytics endpoint in `api.py`.
- `seqs.dfy` (module `Seqs`): generic list combinators. They are filter-map, flat-map and
  `Collect`. `Collect` builds a list of rows and stops at the first record that raises.

Row ids are positions: the row at index `i` of a table has id `i + 1`. A store write can fail.
The `down` set of tables stands for failing writes: a write to a table in it raises.

## Model

| member | source | states |
|---|---|---|
| Validators.ValidateEmail | utils/validators.py:11-30 | an empty email is accepted; otherwise it is accepted iff the address pattern matches the whole string, or the whole string less one final newline (`re.match` with `$`); valid iff no message |
| Validators.EmailShape | utils/validators.py:25-30 | a non-empty accepted email holds exactly one `@`, not first, and ends in a top-level-domain letter, possibly followed by one newline |
| Validators.ValidateEmailStrict | utils/validators.py:25-30 | corrected check: accepted emails contain no newline, and every email it accepts `validate_email` accepts too |
| Validators.EmailTrailingNewlineAccepted | utils/validators.py:25-27 | `"a@b.co\n"` passes `validate_email` but not the strict check |
| Validators.ValidateSlug | utils/validators.py:33-58 | the four checks in order (required, character class, end hyphens, `--`); valid iff no message |
| Validators.ValidateSlugAccepts | utils/validators.py:46-58 | accepted iff the slug is well formed, or is a slug body plus a newline that does not start with a hyphen and has no `--` (a final hyphen then slips through) |
| Validators.ValidateSlugStrict | utils/validators.py:46-58 | corrected check: accepts exactly the well-formed slugs (lowercase letters, digits, single inner hyphens), a subset of what `validate_slug` accepts |
| Validators.SlugTrailingNewlineAccepted | utils/validators.py:46-55 | `"ab-\n"` passes `validate_slug` but not the strict check |
| Validators.ValidateTranscript | utils/validators.py:61-81 | empty, too short once stripped, too long, else valid; valid iff no message |
| Validators.TranscriptBounds | utils/validators.py:61-81 | an accepted transcript has between 50 and `max_length` characters and is not all whitespace |
| Validators.ValidateName | utils/validators.py:84-109 | required, 2..255 stripped characters, some ASCII letter or digit; valid iff no message |
| Validators.StripKeepsAlnum | utils/validators.py:97-107 | stripping a name neither adds nor removes an ASCII letter or digit |
| Validators.ValidateNameAccepts | utils/validators.py:84-109 | a name is accepted iff its stripped length is in 2..255 and it holds an ASCII letter or digit |
| Validators.ValidateDateRange | utils/validators.py:112-127 | rejects only two given dates with the end before the start; one missing date, or equal dates, pass |
| Validators.PrefixSlice | utils/validators.py:151-152 | Python's `t[:m]`: a prefix of `t`, of length `m` clamped to `0..len(t)`, counting from the end for negative `m` |
| Validators.SanitizeInput | utils/validators.py:130-154 | empty stays empty; the result has no leading whitespace and no two adjacent whitespace characters, every whitespace character in it is a space, it never grows, a positive bound is respected, and without a bound it has no trailing whitespace; with no bound or a bound of 0, its characters other than whitespace are exactly those of the input, in order |
| Validators.SanitizeBoundIsPrefix | utils/validators.py:150-152 | a bound of 0 is no bound; any other bound `m` gives Python's `[:m]` of the unbounded result, which is the whole result when it is no longer than `m` |
| Validators.StripCollapse | utils/validators.py:142-148 | `strip()` then `re.sub(r'\s+', ' ', ...)`: never longer than the input, no whitespace at either end, no two adjacent whitespace characters, every whitespace character in it a space, and the characters other than whitespace are those of the input, in order |
| Validators.SanitizeIdempotent | utils/validators.py:130-154 | sanitising a sanitised text without a bound changes nothing |
| Validators.KeepSlugChars | utils/validators.py:174 | keeps only slug characters, and keeps a string made of them unchanged |
| Validators.KeepSlugCharsSplit | utils/validators.py:174 | `re.sub(r'[^a-z0-9-]', '', ...)` works character by character: the result for `a + b` is the result for `a` followed by that for `b`, and a single character is kept iff it is a slug character |
| Validators.GenerateSlugFromName | utils/validators.py:157-182 | the result is made of slug characters, does not start or end with a hyphen and has no `--`; its `[a-z0-9]` characters are exactly those of the lower-cased name, in order |
| Validators.SlugKeepsAlnum | utils/validators.py:167-180 | replacing spaces, dropping other characters, collapsing hyphen runs and stripping hyphens each keep the `[a-z0-9]` characters, in order |
| Validators.GeneratedSlugIsValid | utils/validators.py:157-182 | a non-empty generated slug passes `validate_slug` and its strict reading |
| Validators.GenerateKeepsSlug | utils/validators.py:157-182 | a well-formed slug, or the empty string, is its own generated slug |
| Validators.GenerateSlugIdempotent | utils/validators.py:157-182 | generating a slug from a generated slug changes nothing |
| Validators.ValidateMemberRole | utils/validators.py:185-200 | valid iff the role is facilitator, participant or observer |
| Validators.ValidateAttendanceStatus | utils/validators.py:203-225 | valid iff the status is one of the six attendance statuses |
| NameMatching.Truncate | utils/name_matching.py:55-58 | `int()` of a non-negative score: the largest integer not above it |
| NameMatching.TruncateThreshold | utils/name_matching.py:51-55 | truncating a score never moves it across the integral threshold 80 |
| NameMatching.BestIndex | utils/name_matching.py:45-49 | `extractOne`: an index of maximal score, the first such index |
| NameMatching.FirstNamed | utils/name_matching.py:54 | `next(...)`: the first member carrying the name |
| NameMatching.MatchName | utils/name_matching.py:18-58 | empty name or roster gives `(None, 0)`; otherwise the confidence is the truncated best score over the roster; a member is returned iff some score reaches 80, and it is then the first member in roster order whose score is the best: every earlier member scores strictly less and none scores more |
| NameMatching.FirstOfBest | utils/name_matching.py:45-54 | the first member carrying the name `extractOne` picks is the first best-scoring member of the roster |
| NameMatching.ConfidenceRange | utils/name_matching.py:36 | the confidence always lies in 0..100 |
| NameMatching.ReviewIffUnmatched | utils/name_matching.py:111 | the review flag `confidence < 80 or member is None` is the same test as `member is None` |
| NameMatching.LaterNamesakeNeverMatched | utils/name_matching.py:54 | of two roster members sharing a name, the later one is never returned |
| NameMatching.PerfectScoreMatches | utils/name_matching.py:45-55 | a name scoring 100 against some member is matched, with confidence 100 |
| NameMatching.AttendanceRecordMatched | utils/name_matching.py:95-112 | the defaults for name, status and notes; the matched id, name and email are those of one roster member, or all None; review iff unmatched; confidence in 0..100 |
| NameMatching.MatchAttendanceToMembers | utils/name_matching.py:61-114 | one result per attendance record, in order, each the per-record match; an absent key gives no results |
| NameMatching.GoalRecordMatched | utils/name_matching.py:150-167 | defaults for name, goal text and vagueness; review iff unmatched or the goal text is falsy; the matched id and name are a roster member's |
| NameMatching.MatchGoalsToMembers | utils/name_matching.py:117-169 | one result per goal, in order, each the per-goal match |
| NameMatching.BatchMatchNames | utils/name_matching.py:172-192 | the keys are exactly the given names and each maps to its own match |
| NameMatching.Insert | utils/name_matching.py:219-224 | inserting a candidate keeps the ranking ordered (higher score first, ties in roster order) and adds exactly that candidate |
| NameMatching.Ranking | utils/name_matching.py:219-224 | every roster position exactly once, ordered by descending score with ties in roster order |
| NameMatching.TopN | utils/name_matching.py:219-224 | the first `top_n` ranked positions: `max(0, min(top_n, len(names)))` of them, in ranking order, and every position left out ranks after every one kept |
| NameMatching.MatchSuggestions | utils/name_matching.py:195-231 | empty for an empty name or roster; otherwise `min(top_n, len(members))` pairs (`ProperSuggestions`): the pairs stand for roster positions (`RankedPositions`), one per pair and carrying its name, in ranking order (descending score, ties in roster order), with every position left out ranking after every one kept; each member is the first roster member carrying its name and comes with the truncated score of that name, in 0..100; the pairs come by non-increasing score; and no member whose name is not suggested scores above the last suggestion |
| NameMatching.SuggestionsOfTop | utils/name_matching.py:219-229 | the pairs built from a top-ranked prefix of positions meet every promise of `ProperSuggestions`, with that prefix as the positions they stand for |
| NameMatching.SuggestionsDistinct | utils/name_matching.py:219-229 | on a roster with distinct names, no member is suggested twice |
| NameMatching.SuggestionHeadIsBestMatch | utils/name_matching.py:195-231 | the first suggestion carries the same score as `match_name_to_member` reports |
| NameMatching.HeadScoresBest | utils/name_matching.py:219-229 | the first suggestion's name scores at least as high as every roster member's |
| Reconcile.NormalizeEnum | api.py:682-687 | `'none_mentioned'` for a falsy value; otherwise the same length, each space or slash an underscore and every other character lower-cased; never empty, no space or slash |
| Reconcile.NormalizeIdempotent | api.py:682-687 | normalising a normalised value changes nothing |
| Reconcile.NormalizeChars | api.py:687 | a non-empty value normalises to the string given character by character |
| Reconcile.AttendanceEnumNormalises | api.py:695 | every attendance status the extractor produces normalises to the matching valid status |
| Reconcile.EmptyStatusIsNotAStatus | api.py:684-685 | an empty or null status becomes `'none_mentioned'`, which is not a valid attendance status |
| Reconcile.MarketingEnumNormalises | api.py:745-750 | the extracted stages, activity types and contract types, and a missing one, normalise into the stored token lists |
| Reconcile.NameToId | api.py:669-671 | the map's keys are exactly the roster names |
| Reconcile.NameToIdLastWins | api.py:669-671 | a name maps to the id of the last roster entry carrying it |
| Reconcile.BuildNameToId | api.py:669-671 | the loop builds exactly that map |
| Reconcile.Resolve | api.py:703-704 | an id iff the name is truthy and a key of the map, and then the mapped id |
| Reconcile.ResolvedIsRosterId | api.py:669-671 | a resolved id is that of the last roster member carrying the name |
| Reconcile.AttendanceShape | api.py:690-697 | a record is kept iff `matched_member_id` is truthy; it keeps that id, the raw notes, and the normalised status with `'present'` as the default |
| Reconcile.AttendanceStatusDefaults | api.py:695 | an absent status is stored as `'present'`, a null or empty one as `'none_mentioned'` |
| Reconcile.ReconcileAttendance | api.py:689-697 | the loop returns the kept records in input order |
| Reconcile.GoalShape | api.py:700-708 | a goal is kept iff its name resolves; it carries the resolved id, goal text default `''` and vagueness default False |
| Reconcile.ReconcileGoals | api.py:699-708 | the loop returns the kept goals in input order |
| Reconcile.GoalsKeptIffResolved | api.py:700-708 | every goal whose name resolves is kept, and every kept goal carries the id of a resolved goal's name |
| Reconcile.StrategyShape | api.py:719-727 | `suggested_by` is resolved from the strategy's own name (None when unresolved); summary and tag are copied |
| Reconcile.ChallengeShape | api.py:729-734 | the participant's id, description and category default `''`, and its strategies in order |
| Reconcile.ParticipantChallenges | api.py:713-734 | nothing for an unresolved participant, else one record per challenge |
| Reconcile.ReconcileChallenges | api.py:711-735 | the three nested loops return the flattened challenges of all participants in order |
| Reconcile.ChallengeOwners | api.py:713-734 | every flattened challenge belongs to a participant whose name resolved to its `member_id` |
| Reconcile.ActivityShape | api.py:744-753 | normalised stage and activity; quantity from the `quanitity` key, default 0; outcome default `{}`; win default False; contract type normalised when truthy, else None; raw revenue |
| Reconcile.QuantityKeyIgnored | api.py:748 | a correctly spelt `quantity` key has no effect, and a missing `quanitity` stores 0 |
| Reconcile.ParticipantActivities | api.py:740-753 | nothing for an unresolved participant, else one record per activity |
| Reconcile.ReconcileMarketing | api.py:738-753 | the nested loops return the flattened activities in order |
| Reconcile.StuckShape | api.py:756-766 | a detection is kept iff its name resolves, with the resolved id and the stated defaults |
| Reconcile.ReconcileStucks | api.py:755-766 | the loop returns the kept detections in order |
| Reconcile.QuoteShape | api.py:772-780 | a quote is kept iff its name resolves; `emotion` is stored as `emotions`; defaults `[]`, `[]`, False |
| Reconcile.ReconcileSentiment | api.py:769-788 | `{}` for a falsy extraction; otherwise all five keys with defaults 3, `''`, `''`, 0.5 and the kept quotes; the result is truthy iff the extraction is |
| Reconcile.ReconcileExtractions | api.py:669-788 | each of the six arguments passed to the saver is the reconciled list of its category |
| Reconcile.EmptyRosterKeepsNothing | api.py:669-766 | with an empty roster no goal, challenge or stuck detection is kept |
| Persistence.SaveAttendanceSpec | db/operations/attendance.py:11-49 | only the attendance table changes, and a failed save changes nothing |
| Persistence.UpsertIsOverride | db/operations/attendance.py:42-47 | the upsert replaces the rows of the batch's keys with the batch's last row per key and keeps every other row |
| Persistence.LatestKeys | db/operations/attendance.py:42-47 | every row of the batch is stored under its `(session_id, member_id)` key, and only the batch's keys are written |
| Persistence.AttendanceRecordsShaped | db/operations/attendance.py:33-47 | one row per record, stamped with the session id, notes None when absent; the table becomes the old one overridden by the batch |
| Persistence.AttendanceIdempotent | db/operations/attendance.py:42-47 | saving the same records a second time changes nothing |
| Persistence.AttendanceFailsIff | db/operations/attendance.py:33-47 | the save fails iff some record lacks `member_id` or `status`, or the batch is non-empty and the write fails |
| Persistence.SaveGoalsSpec | db/operations/goals.py:11-46 | only the goals table changes, and a failed save changes nothing |
| Persistence.GoalsShaped | db/operations/goals.py:33-44 | the old rows stay, then one row per goal in order, with the session id, vagueness default False, not completed |
| Persistence.SaveChallengesSpec | db/operations/challenges.py:11-65 | only the challenge and strategy tables change, and both only grow |
| Persistence.StrategyRowsReferToParent | db/operations/challenges.py:48-60 | every strategy row of a challenge carries that challenge row's id |
| Persistence.ChallengesSaved | db/operations/challenges.py:39-63 | a complete save adds one challenge row per input in order, followed in the strategy table by the rows that point at each |
| Persistence.ParentKeptWhenStrategiesFail | db/operations/challenges.py:41-63 | no rollback: when the first challenge's strategies cannot be written, its row stays and the save fails |
| Persistence.SaveMarketingSpec | db/operations/marketing.py:11-68 | only the activity and outcome tables change, and both only grow |
| Persistence.MarketingSaved | db/operations/marketing.py:42-66 | a complete save adds one activity row per input in order, and one outcome row per truthy outcome pointing at its activity |
| Persistence.OutcomeRowsReferToActivities | db/operations/marketing.py:55-61 | every outcome row points at an activity row written by the same save |
| Persistence.OutcomeRowOnlyWhenTruthy | db/operations/marketing.py:58-62 | an empty outcome dict writes no outcome row; a missing meeting count is stored as 0 |
| Persistence.SaveStucksSpec | db/operations/stucks.py:11-49 | only the stucks table changes, and a failed save changes nothing |
| Persistence.StucksShaped | db/operations/stucks.py:35-47 | the old rows stay, then one row per detection in order, with the session id, `member_id`, `classification` and `stuck_summary` as given, quotes default `[]`, next step None when absent |
| Persistence.StuckRequiredKeys | db/operations/stucks.py:40-41 | a detection without `classification` or `stuck_summary` fails the whole batch before anything is written |
| Persistence.SaveSentimentSpec | db/operations/sentiment.py:11-68 | only the sentiment and statement tables change, and both only grow |
| Persistence.SentimentSaved | db/operations/sentiment.py:42-66 | a well-formed sentiment adds exactly one row for the session, and every statement row written points at its id; with truthy `representative_quotes` a successful save appends exactly one statement row per quote, in order, each the row built from that quote; otherwise, or when the statement write fails, the statement table is unchanged |
| Persistence.CategoriesIsolated | db/operations/sessions.py:180-235 | every category ends up exactly as if saved alone on the initial tables, whatever the others did, and `errors` holds one `"<Category> error: <text>"` per failing category, in the fixed category order |
| Persistence.ChallengesLocal | db/operations/challenges.py:39-63 | the challenge save reads only the challenge and strategy tables |
| Persistence.MarketingLocal | db/operations/marketing.py:42-66 | the marketing save reads only the activity and outcome tables |
| Storage.Database.constructor | db/client.py:18-42 | the model's initial store, standing for the client every saver writes through: the given sessions, every extraction table empty, and the given set of tables whose writes fail |
| Storage.Database.SaveAttendanceRecords | db/operations/attendance.py:11-49 | the row-by-row upsert leaves the store and returns the outcome exactly as `SaveAttendanceSpec` says |
| Storage.Database.UpdateAttendanceStatus | db/operations/attendance.py:71-102 | the row of `(session_id, member_id)` gets the status, and the notes when given; None and no change when there is no such row; no other table changes |
| Storage.Database.SaveGoals | db/operations/goals.py:11-46 | leaves the store and returns the outcome exactly as `SaveGoalsSpec` says |
| Storage.Database.UpdateGoalCompletion | db/operations/goals.py:68-88 | the goal with that id gets the completion flag; None and no change when there is none |
| Storage.Database.SaveChallenges | db/operations/challenges.py:11-65 | the challenge loop leaves the store exactly as `SaveChallengesSpec` says |
| Storage.Database.SaveMarketingActivities | db/operations/marketing.py:11-68 | the activity loop leaves the store exactly as `SaveMarketingSpec` says |
| Storage.Database.SaveStuckDetections | db/operations/stucks.py:11-49 | leaves the store and returns the outcome exactly as `SaveStucksSpec` says |
| Storage.Database.SaveSentiment | db/operations/sentiment.py:11-68 | leaves the store and returns the outcome exactly as `SaveSentimentSpec` says |
| Storage.Database.SaveSessionExtractions | db/operations/sessions.py:142-235 | always returns True; the store and the errors are those of `SaveSessionExtractionsSpec`, so `CategoriesIsolated` describes them |
| Storage.Database.UpdateSession | db/operations/sessions.py:85-118 | only the fields given as non-None change, on that session only; a missing session is an error and changes nothing |
| SessionHelpers.CalculateSessionDuration | utils/session_helpers.py:74-91 | None iff the transcript has no word (empty or all whitespace); otherwise the word count divided by 150, rounded down |
| SessionHelpers.EstimatedMinutes | utils/session_helpers.py:89-91 | `int(n / 150)` when positive, else None, equals `n // 150` for a positive word count |
| SessionHelpers.ShortTranscriptIsZeroMinutes | utils/session_helpers.py:88-91 | a transcript of 1 to 149 words is estimated at 0 minutes, not None |
| SessionHelpers.GetSessionSummaryStats | utils/session_helpers.py:94-129 | the list lengths; the present count is the number of attendance records whose status is `present`; present plus absent is the attendance total, neither negative; `has_sentiment` iff the key holds a non-null value |
| SessionHelpers.PresentCountAll | utils/session_helpers.py:119 | the present count is the attendance total iff every entry says `'present'` |
| SessionHelpers.NoAbsentIffAllPresent | utils/session_helpers.py:119-124 | no absence is counted iff every attendance entry says `'present'` |
| SessionHelpers.ValidateSessionExtractions | utils/session_helpers.py:132-168 | the error list is the missing-key, attendance and goal messages in check order; valid iff it is empty |
| SessionHelpers.MissingKeyErrorsIff | utils/session_helpers.py:145-148 | a missing-key message is produced iff some listed key is absent |
| SessionHelpers.NoAttendanceMessageNeverProduced | utils/session_helpers.py:151-152 | `"No attendance records found"` is never reported |
| SessionHelpers.MissingKeyReported | utils/session_helpers.py:145-148 | the message for a required key is reported iff the dict lacks that key |
| SessionHelpers.MissingKeyInvalidates | utils/session_helpers.py:145-168 | a dict that lacks a required key is never valid |
| SessionHelpers.GoalWithoutTextReported | utils/session_helpers.py:162-166 | each goal whose text is absent, null or empty gets its own `"Goal <idx> missing goal text"` |
| SessionHelpers.AppendToGroups | utils/session_helpers.py:197-219 | the grouped members are unchanged, and each member's list gains exactly the entries naming it, in order |
| SessionHelpers.GroupExtractionsByMember | utils/session_helpers.py:171-221 | the keys are exactly the truthy attendance ids; each member has its last attendance entry and, per category, the entries naming it, in input order |
| SessionHelpers.IdsIff | utils/session_helpers.py:184-195 | a member is grouped iff some attendance entry names it |
| SessionHelpers.LastOfIsLast | utils/session_helpers.py:195 | a grouped member's attendance is the last attendance entry naming it |
| SessionHelpers.ItemsOfIff | utils/session_helpers.py:198-219 | a member's list holds exactly the entries naming it |
| SessionHelpers.ItemsOfAppend | utils/session_helpers.py:198-219 | grouping a concatenation groups each part, in order |
| GroupAnalytics.PresentPlusAbsent | api.py:876-890 | every attendance row counts once, as present or as absent |
| GroupAnalytics.NoAbsenceAllPresent | api.py:889 | no absence iff every row is `'present'` |
| GroupAnalytics.Score | api.py:887-907 | the score lies in 0..7 |
| GroupAnalytics.ScoreThresholds | api.py:887-921 | score ≥ 4 iff two of the three major factors hold; score ≥ 2 iff one does; the score is odd iff the member has an absence |
| GroupAnalytics.ScoreMonotone | api.py:887-907 | more absences or more stuck detections never lower the score |
| GroupAnalytics.RiskScore | api.py:887-907 | the step-by-step accumulation equals the score |
| GroupAnalytics.RiskLevel | api.py:909-921 | always a risk category other than intervention; `crushing_it` iff a win or revenue; otherwise high, medium or on track by the 4 and 2 thresholds |
| GroupAnalytics.AssessMember | api.py:876-921 | the score and level of one member; without a win or revenue, `on_track` iff fewer than two absences, recent goals (or no sessions) and fewer than two stuck detections |

## Left out

- Calls to the language model, the HTTP layer, the user interface and logging are not modelled. The saver collects error messages instead of printing them.
- The store is modelled as an in-memory object. Row ids are positions, nothing is ever deleted, and a failing write is a table in `down` whose text is the fixed message `"store write failed"`. The client library's real exception texts and its transactions are not modelled.
- The read queries (`get_*`, `list_*`), session creation and deletion, and `format_session_date`, `format_session_display_name` and `parse_session_date` are not part of this model.
- Reconcile.StrategyShape: `dict(strategy)` copies every key of a strategy. The model carries only `summary` and `tag`, the keys the saver reads.
- A list-valued key that holds `null` makes the source raise a `TypeError`. The model treats a list key as present or absent only.
- Reconcile.ReconcileExtractions: the ensures states the sentiment argument only up to truthiness. `ReconcileSentiment` states it in full.
- Lower-casing covers ASCII letters only. Python's `str.lower` also maps other Unicode letters.
- NameMatching.MatchName: rapidfuzz's `token_sort_ratio` is a parameter, assumed to stay in 0..100. Its internals are not modelled.
- GroupAnalytics.AssessMember: the two-week window, `datetime.now()`, date parsing and the float revenue test are abstracted. They become the inputs `recentGoals` and `hasRevenue`.
- Storage.Database.UpdateSession: the date is stored as an ISO string given by the caller. A missing session is an `Err` with Python's message, in place of the raised `IndexError`.
- Storage.Database.SaveAttendanceRecords: the database sends a batch upsert as one statement, and a batch with two rows for one key is rejected there. The model applies the rows one after another, so the last one wins.
- Storage.Database.SaveAttendanceRecords: a null `member_id` is a conflict key like any other. SQL's rule that NULL keys never conflict is not modelled.
- Storage.Database.UpdateAttendanceStatus, Storage.Database.UpdateGoalCompletion, Storage.Database.UpdateSession: these do not model a failing store write.
- `confidence_score`, `revenue` and the word rate are reals. Floating-point rounding is not modelled.

## Findings

| source | as written | input that shows it | evidently intended | confidence | as-written member | corrected member |
|---|---|---|---|---|---|---|
| utils/validators.py:46-52 | `re.match(r'^[a-z0-9-]+$', slug)` lets `$` match before a final newline, and the end-hyphen test then looks at the newline | `"ab-\n"` is accepted | reject anything but lowercase letters, digits and single inner hyphens | not executed | Validators.SlugTrailingNewlineAccepted | Validators.ValidateSlugStrict |
| utils/validators.py:25-27 | `re.match(pattern, email)` with `$` accepts an address followed by a newline | `"a@b.co\n"` is accepted | accept only a complete address | not executed | Validators.EmailTrailingNewlineAccepted | Validators.ValidateEmailStrict |
