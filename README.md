# mat-e-voto voting advice application, modelled in Dafny

mat-e-voto's voting advice application (VAA) works as follows:

- A voter answers a questionnaire of policy statements. Each answer is AGREE, NEUTRAL, DISAGREE or SKIP. The voter may also mark topics as important.
- The answers travel between pages as an encoded token.
- The scoring engine compares the answers with every party's stated positions. It returns one match percentage per party, with a per-topic breakdown, sorted best match first.
- Editors keep the catalogue in an admin area:
  - the dashboard shows counts and coverage;
  - the positions grid sets parties' positions;
  - the statements list deletes, activates and deactivates, and reorders statements.

This project models that core:

- the scoring engine;
- the session state and its token;
- the questionnaire as a stateful session;
- the results, compare and calculate endpoints;
- the built-in catalogue;
- the positions page's loader and action, the statements page's action and the dashboard's loader.

The project proves properties of the model:

- scores are bounded and sum up correctly;
- the sort is stable, ordered and a permutation;
- answers that cannot count change nothing;
- an important topic doubles exactly its own topic's points;
- encoding and decoding the token is a round trip;
- the selection of compared parties stays between one and four;
- a reorder swaps exactly two statements' order values;
- the built-in catalogue is complete and every word in it is a valid position.

Modules, one per core file, plus three shared helpers:

| module | models |
|---|---|
| `Wrappers` | Option |
| `OrderedMaps` | JS `Map`/records with insertion order: a key sequence plus a map |
| `Percent` | `Math.round(part / whole * 100)` as exact round-half-up |
| `VaaAlgorithm` | app/lib/vaa-algorithm.server.ts |
| `VaaState` | app/lib/vaa-state.ts |
| `Questionnaire` | app/routes/vaa/questionnaire.tsx |
| `CatalogueData` | app/lib/data.ts |
| `Results` | app/routes/vaa/results.tsx |
| `Compare` | app/routes/vaa/compare.tsx |
| `CalculateApi` | app/routes/api/vaa/calculate.tsx |
| `AdminPositions` | app/routes/admin/vaa/positions/index.tsx |
| `AdminStatements` | app/routes/admin/vaa/statements/index.tsx |
| `AdminDashboard` | app/routes/admin/vaa/index.tsx |

How the model is built:

- **Loops become methods proved against functions.** Where the source computes with loops, the model has a method with the same loops. Examples are the matching loop, the tally loop, the preparation loops and the answer statistics. Each method is proved equal to a recursive specification function, and the properties are proved about that function.
- **Updated objects become classes.** The questionnaire session, the compared-party selection, the statement table and the position table are updated in place. They are classes whose methods state their whole new state.
- **Behaviour of the code worth knowing when reading the model:**
  - **Skipped topics in the breakdown.** A statement answered SKIP is passed over before the breakdown is touched, so a topic whose answered statements were all skipped has no breakdown entry at all (`VaaAlgorithm.TallyTopics`).
  - **The NEUTRAL/NEUTRAL score.** The comment over the scoring matrix (app/lib/vaa-algorithm.server.ts:31) says a NEUTRAL answer scores 1 against anything. The matrix itself (line 37) gives NEUTRAL/NEUTRAL 2 points, and the model follows the matrix (`VaaAlgorithm.ScoringMatrix`).
  - **The calculate endpoint's reply.** A successful reply is an object `{ results }` (app/routes/api/vaa/calculate.tsx:90), not a bare array (`CalculateApi.Action`).
  - **When the session is cleared.** The final answer leaves the stored state untouched and navigates to the results; the stored state is cleared only on "retake" (`Questionnaire.FinalAnswerHandsOff`, `Results.HandleRetake`).

## Model

| member | source | states |
|---|---|---|
| VaaAlgorithm.PositionOf | app/lib/vaa-algorithm.server.ts:3-4 | a position word maps to the position whose word it is |
| VaaAlgorithm.ScoringMatrix | app/lib/vaa-algorithm.server.ts:27-39 | points are at most 2; 2 exactly when answer and position agree; 0 exactly for AGREE against DISAGREE; 1 exactly when they differ and one is NEUTRAL |
| VaaAlgorithm.CalculateStatementPoints | app/lib/vaa-algorithm.server.ts:41-47 | SKIP scores 0; a stated answer scores the matrix entry; never more than 2 |
| VaaAlgorithm.Weighted | app/lib/vaa-algorithm.server.ts:67-75 | weighted points never exceed twice the weight, the statement's maximum |
| VaaAlgorithm.CalculateMatches | app/lib/vaa-algorithm.server.ts:49-111 | the loop over parties, then the sort, yields exactly the specification `Matches` |
| VaaAlgorithm.CalculatePartyResult | app/lib/vaa-algorithm.server.ts:52-106 | one party's result from the loop equals the specification `ResultFor` |
| VaaAlgorithm.TallyAnswers | app/lib/vaa-algorithm.server.ts:57-86 | the answer loop, with its skip, no-position and no-topic exits, equals the tally over the answers in order |
| VaaAlgorithm.UpdateTopicScore | app/lib/vaa-algorithm.server.ts:77-85 | a breakdown entry is created at 0/0 or extended by the weighted points and maximum |
| VaaAlgorithm.FillPercentages | app/lib/vaa-algorithm.server.ts:89-93 | every topic gets its rounded percentage; keys and order are unchanged |
| VaaAlgorithm.WithPercentages | app/lib/vaa-algorithm.server.ts:89-93 | same topics; each entry's percentage is set from its own score and maximum |
| VaaAlgorithm.UnsortedResults | app/lib/vaa-algorithm.server.ts:52-106 | one result per party in the positions map, in map order |
| VaaAlgorithm.PartyIds | app/lib/vaa-algorithm.server.ts:100-106 | the party ids of a result list, position by position |
| VaaAlgorithm.MatchesRanked | app/lib/vaa-algorithm.server.ts:49-111 | results are one per party (a permutation of the party ids), each the party's own result, sorted by descending percentage, and equal percentages keep their input order (stable sort) |
| VaaAlgorithm.SortByMatchSorted | app/lib/vaa-algorithm.server.ts:110 | the sort's output is ordered by descending match percentage |
| VaaAlgorithm.SortByMatchPermutes | app/lib/vaa-algorithm.server.ts:110 | the sort's output is a permutation of its input |
| VaaAlgorithm.SortByMatchPermutesIds | app/lib/vaa-algorithm.server.ts:110 | the sort keeps the multiset of party ids |
| VaaAlgorithm.SortByMatchStable | app/lib/vaa-algorithm.server.ts:110 | results with equal percentage keep their relative order |
| VaaAlgorithm.InsertSorted | app/lib/vaa-algorithm.server.ts:110 | inserting into an ordered list keeps it ordered |
| VaaAlgorithm.InsertPermutes | app/lib/vaa-algorithm.server.ts:110 | insertion adds exactly the one element |
| VaaAlgorithm.InsertPermutesIds | app/lib/vaa-algorithm.server.ts:110 | insertion adds exactly the one party id |
| VaaAlgorithm.InsertMembers | app/lib/vaa-algorithm.server.ts:110 | insertion introduces no element other than the inserted one |
| VaaAlgorithm.WithMatchInsert | app/lib/vaa-algorithm.server.ts:110 | insertion places the new element after all earlier ones of the same percentage |
| VaaAlgorithm.TallyBounds | app/lib/vaa-algorithm.server.ts:57-86 | total points never exceed the maximum, overall and per topic |
| VaaAlgorithm.TallySums | app/lib/vaa-algorithm.server.ts:57-86 | the topic scores sum to the total and the topic maxima to the maximum |
| VaaAlgorithm.AddScoreSums | app/lib/vaa-algorithm.server.ts:70-85 | adding one counted statement keeps totals equal to the topic sums |
| VaaAlgorithm.SumAfterSet | app/lib/vaa-algorithm.server.ts:77-85 | setting one breakdown entry changes the sum by that entry's difference |
| VaaAlgorithm.SumAfterSetPresent | app/lib/vaa-algorithm.server.ts:83-84 | updating an existing entry changes the sum by its difference |
| VaaAlgorithm.SumAfterSetFresh | app/lib/vaa-algorithm.server.ts:78-80 | a new entry adds its own count to the sum |
| VaaAlgorithm.TallyTopics | app/lib/vaa-algorithm.server.ts:57-86 | a topic appears in the breakdown exactly when some answered, non-skipped statement of it has a party position and a topic |
| VaaAlgorithm.PartyResultFacts | app/lib/vaa-algorithm.server.ts:89-106 | a party's result has points at most the maximum, a percentage in [0,100] that is 0 without a maximum and otherwise the rounded ratio, breakdown sums equal to the totals, and each topic's percentage its own rounded ratio |
| VaaAlgorithm.TallyResultFacts | app/lib/vaa-algorithm.server.ts:89-106 | the same facts for a result built from any consistent tally |
| VaaAlgorithm.PercentagesFacts | app/lib/vaa-algorithm.server.ts:89-93 | filling percentages keeps the sums, and each percentage is the entry's rounded ratio, at most 100 |
| VaaAlgorithm.SumSame | app/lib/vaa-algorithm.server.ts:89-93 | entries with equal score and maximum give equal sums |
| VaaAlgorithm.TallyFrame | app/lib/vaa-algorithm.server.ts:57-86 | the tally depends only on the answers to the statements it visits |
| VaaAlgorithm.TallyWithoutUncounted | app/lib/vaa-algorithm.server.ts:59-65 | dropping a statement that cannot count leaves the tally unchanged |
| VaaAlgorithm.UncountedAnswerIgnored | app/lib/vaa-algorithm.server.ts:59-65 | removing an answer that counts for no party leaves all results unchanged |
| VaaAlgorithm.SkipIsUnanswered | app/lib/vaa-algorithm.server.ts:59 | answering SKIP gives the same results as not answering |
| VaaAlgorithm.FullCoverageMax | app/lib/vaa-algorithm.server.ts:61-75 | when the party has a position on every answered statement, its maximum is 2 × weight summed over the answered, non-skipped statements with a topic |
| VaaAlgorithm.ImportantTopicDoubles | app/lib/vaa-algorithm.server.ts:67-85 | marking a topic important doubles that topic's score and maximum, and the totals by the same amounts, and leaves every other topic unchanged |
| VaaAlgorithm.DoubledStep | app/lib/vaa-algorithm.server.ts:67-85 | one statement keeps the doubling relation between the two tallies |
| VaaAlgorithm.DoubledAddSame | app/lib/vaa-algorithm.server.ts:67-75 | a statement of the important topic adds exactly twice the points and maximum |
| VaaAlgorithm.DoubledAddOther | app/lib/vaa-algorithm.server.ts:77-85 | a statement of another topic adds the same to both tallies |
| VaaAlgorithm.WeightsOf | app/lib/vaa-algorithm.server.ts:131-134 | every importance key gets a weight, 2 exactly when marked important and 1 exactly when not |
| VaaAlgorithm.Prefix | app/lib/vaa-algorithm.server.ts:125-128 | the first n entries of an ordered map |
| VaaAlgorithm.PrepareCalculationInput | app/lib/vaa-algorithm.server.ts:114-157 | the four preparation loops build exactly the specification `PrepareInput` |
| VaaAlgorithm.CopyAnswers | app/lib/vaa-algorithm.server.ts:125-128 | the copied answers equal the voter's answers, order included |
| VaaAlgorithm.FillWeights | app/lib/vaa-algorithm.server.ts:131-134 | the weight loop gives `WeightsOf` |
| VaaAlgorithm.FillStatementTopics | app/lib/vaa-algorithm.server.ts:137-140 | the statement-to-topic loop gives its specification map |
| VaaAlgorithm.FillPartyPositions | app/lib/vaa-algorithm.server.ts:143-149 | the grouping loop gives its specification map of maps |
| VaaAlgorithm.StatementTopicsLastWins | app/lib/vaa-algorithm.server.ts:137-140 | a statement id is mapped exactly when some statement has it, and to the topic of its last occurrence |
| VaaAlgorithm.StatementTopicsKeys | app/lib/vaa-algorithm.server.ts:137-140 | the mapped ids are exactly the statements' ids |
| VaaAlgorithm.StatementTopicsLast | app/lib/vaa-algorithm.server.ts:137-140 | a mapped id carries the topic of its last row |
| VaaAlgorithm.GroupedParties | app/lib/vaa-algorithm.server.ts:143-149 | a party has an entry exactly when some position row names it |
| VaaAlgorithm.GroupedPairs | app/lib/vaa-algorithm.server.ts:143-149 | a (party, statement) pair is present exactly when some row gives it |
| VaaAlgorithm.GroupedLastRow | app/lib/vaa-algorithm.server.ts:143-149 | a pair's position is that of the last row for it |
| VaaAlgorithm.AddRowPairs | app/lib/vaa-algorithm.server.ts:144-148 | one row adds or overwrites exactly its own pair |
| VaaAlgorithm.LastRowExtend | app/lib/vaa-algorithm.server.ts:143-149 | a later row for another pair keeps the last row of a pair |
| VaaAlgorithm.PartyWithoutRowsHasNoResult | app/lib/vaa-algorithm.server.ts:143-149 | a party with no position rows gets no result |
| Percent.RoundPercent | app/lib/vaa-algorithm.server.ts:90-98 | the result is 100·part/whole rounded half up (stated by bounds), 0 for a zero whole, at most 100 when part ≤ whole |
| Percent.RoundedAtMostHundred | app/lib/vaa-algorithm.server.ts:95-98 | a rounded ratio of part ≤ whole is at most 100 |
| OrderedMaps.Empty | app/lib/vaa-state.ts:19-20 | an empty record has no keys and no values |
| OrderedMaps.Get | app/lib/vaa-algorithm.server.ts:61-62 | a lookup finds exactly the stored keys and returns their values |
| OrderedMaps.Set | app/routes/vaa/questionnaire.tsx:127 | assignment overwrites in place or appends a new key last |
| OrderedMaps.Without | app/routes/vaa/compare.tsx:147 | filtering out a key keeps every other element and keeps keys distinct; a one-element list is kept or emptied |
| OrderedMaps.WithoutAppend | app/routes/vaa/compare.tsx:147 | the filter distributes over concatenation, so the kept elements keep their order |
| OrderedMaps.EntryList | app/routes/vaa/results.tsx:58 | `Object.entries` lists each key with its value, in key order |
| OrderedMaps.Values | app/lib/vaa-state.ts:99 | `Object.values` lists the values in key order |
| VaaState.GetInitialState | app/lib/vaa-state.ts:16-24 | index 0, no answers, no importance, started now, not complete |
| VaaState.OrEmpty | app/lib/vaa-state.ts:71-72 | a falsy field becomes an empty record, a present one is kept |
| VaaState.EncodeSucceedsIffLatin1 | app/lib/vaa-state.ts:56-62 | encoding succeeds exactly when the serialised payload is Latin-1 (otherwise `btoa` throws) |
| VaaState.DecodeEncode | app/lib/vaa-state.ts:56-78 | decoding an encoded token returns exactly the answers and importance encoded |
| VaaState.DecodeFailsWhole | app/lib/vaa-state.ts:65-78 | decoding fails exactly when base64 or JSON fails or the JSON is null |
| VaaState.MissingFieldIsEmpty | app/lib/vaa-state.ts:71-72 | a missing answers or importance field decodes to an empty record |
| VaaState.CalculateProgress | app/lib/vaa-state.ts:81-87 | 0 with no statements, else the rounded percentage index/total, at most 100 while in range |
| VaaState.GetAnswerStats | app/lib/vaa-state.ts:90-118 | the counting loop equals the specification `StatsOf` over the answer values |
| VaaState.StatsCount | app/lib/vaa-state.ts:90-118 | each count is the number of answers of that kind, the total the number of answers, and the four counts sum to the total |
| VaaState.AnswerStatsTotal | app/lib/vaa-state.ts:99-100 | the total is the number of answered statements |
| VaaState.SessionStore.constructor | app/lib/vaa-state.ts:26-53 | storage starts empty |
| VaaState.SessionStore.Save | app/lib/vaa-state.ts:26-32 | the stored state becomes the given one |
| VaaState.SessionStore.Load | app/lib/vaa-state.ts:34-46 | loading returns what is stored |
| VaaState.SessionStore.Clear | app/lib/vaa-state.ts:48-53 | storage becomes empty |
| Questionnaire.Restored | app/routes/vaa/questionnaire.tsx:78-86 | a saved state with answers is resumed; otherwise a fresh state starts |
| Questionnaire.CurrentStatement | app/routes/vaa/questionnaire.tsx:118 | the current statement exists exactly when the index is in range, and is the statement at it |
| Questionnaire.AfterAnswer | app/routes/vaa/questionnaire.tsx:124-141 | with no current statement nothing happens; before the last statement the answer is recorded (overwritten in place, or appended as the last key) and the index advances by one; on the last one the state is untouched and the page navigates to the results, or encoding fails |
| Questionnaire.AfterPrevious | app/routes/vaa/questionnaire.tsx:143-151 | the index goes back by one, never below 0; nothing else changes |
| Questionnaire.AfterImportance | app/routes/vaa/questionnaire.tsx:153-162 | the current statement's topic gets the checkbox value (overwritten in place, or appended as the last key); with no current statement nothing changes |
| Questionnaire.FinalAnswerHandsOff | app/routes/vaa/questionnaire.tsx:130-132 | the final answer navigates to the results with a token that decodes to all answers, the final one included, while the stored state stays as it was |
| Questionnaire.RunInvariants | app/routes/vaa/questionnaire.tsx:124-162 | any sequence of events keeps the index in range, never loses an answered statement, and never changes the completion flag or start time |
| Questionnaire.FreshSessionInRange | app/routes/vaa/questionnaire.tsx:78-162 | a fresh session stays in range and never completes |
| Questionnaire.Session.Restore | app/routes/vaa/questionnaire.tsx:78-86 | the session starts from the restored state |
| Questionnaire.Session.HandleAnswer | app/routes/vaa/questionnaire.tsx:124-141 | the handler's new state and outcome are exactly `AfterAnswer` |
| Questionnaire.Session.HandlePrevious | app/routes/vaa/questionnaire.tsx:143-151 | the new state is exactly `AfterPrevious` |
| Questionnaire.Session.HandleTopicImportance | app/routes/vaa/questionnaire.tsx:153-162 | the new state is exactly `AfterImportance` |
| CatalogueData.FindTopic | app/lib/data.ts:124 | a topic is found exactly when some topic has the id, and it is the first such topic |
| CatalogueData.FindParty | app/routes/vaa/results.tsx:57 | a party is found exactly when some party has the id, and it is the first such party |
| CatalogueData.StatementsWithTopics | app/lib/data.ts:121-126 | one entry per statement, in order; its topic is found exactly when some catalogue topic has the statement's topic id, and it is the first such topic |
| CatalogueData.GetAllPositions | app/lib/data.ts:129-137 | the flattening loop equals the specification `Flatten` |
| CatalogueData.FlattenLength | app/lib/data.ts:129-137 | the flattened list has one row per table entry |
| CatalogueData.FlattenRows | app/lib/data.ts:129-137 | a row is in the flattened list exactly when its party's table holds that statement and position |
| CatalogueData.CatalogueComplete | app/lib/data.ts:14-118 | 4 parties and 33 statements; each party's table lists every statement id, in statement order |
| CatalogueData.CatalogueWordsValid | app/lib/data.ts:73-118 | every position in the catalogue is AGREE, NEUTRAL or DISAGREE |
| CatalogueData.AllTablesComplete | app/lib/data.ts:73-118 | every table is complete and uses valid words |
| CatalogueData.AllPositionsOfCatalogue | app/lib/data.ts:129-137 | the catalogue yields 132 position rows, all valid |
| CatalogueData.CatalogueTopicsResolve | app/lib/data.ts:3-70 | every catalogue statement's topic exists |
| CatalogueData.CatalogueAllActive | app/lib/data.ts:21-70 | every catalogue statement is active |
| CatalogueData.VvKeys | app/lib/data.ts:73-118 | the first party's table covers the statements in order |
| CatalogueData.LdkKeys | app/lib/data.ts:73-118 | the second party's table covers the statements in order |
| CatalogueData.PdkKeys | app/lib/data.ts:73-118 | the third party's table covers the statements in order |
| CatalogueData.AakKeys | app/lib/data.ts:73-118 | the fourth party's table covers the statements in order |
| CatalogueData.VvWords | app/lib/data.ts:73-118 | the first party's positions are valid words |
| CatalogueData.LdkWords | app/lib/data.ts:73-118 | the second party's positions are valid words |
| CatalogueData.PdkWords | app/lib/data.ts:73-118 | the third party's positions are valid words |
| CatalogueData.AakWords | app/lib/data.ts:73-118 | the fourth party's positions are valid words |
| CatalogueData.PartyRows | app/lib/data.ts:131-135 | one row per table entry, carrying the party id |
| Results.ActiveRefs | app/routes/vaa/results.tsx:44 | exactly the active statements, with their topic ids |
| Results.TopicEntryOf | app/routes/vaa/results.tsx:59-66 | a breakdown entry keeps the scores and names its topic, or empty strings for an unknown topic |
| Results.Enrich | app/routes/vaa/results.tsx:56-76 | the enriched result keeps the party's numbers, adds the party found by id, and lists the breakdown in order |
| Results.Loader | app/routes/vaa/results.tsx:29-85 | no token gives `no_data`; an undecodable one `invalid_data`; otherwise the enriched ranking of the decoded answers against the active statements, with the answered count |
| Results.LoadedResultsRanked | app/routes/vaa/results.tsx:54-84 | loaded results are ordered best first, each with a percentage ≤ 100 and points ≤ maximum |
| Results.NoActiveStatementNoTopic | app/routes/vaa/results.tsx:44-52 | a statement with no active row has no topic in the engine input |
| Results.InactiveAnswerIgnored | app/routes/vaa/results.tsx:44-54 | an answer to an inactive statement changes no result |
| Results.HandleRetake | app/routes/vaa/results.tsx:157-159 | retaking clears the stored session |
| Compare.BuildPositionMap | app/routes/vaa/compare.tsx:55-61 | the map-building loop equals its specification map |
| Compare.PositionMapLastWins | app/routes/vaa/compare.tsx:55-61 | a cell is present exactly when some row gives it, and holds the last such row's position |
| Compare.Loader | app/routes/vaa/compare.tsx:25-71 | `no_data` without a token, `invalid_data` for an undecodable one, else the records, the decoded answers and the position map |
| Compare.GetMatchStatus | app/routes/vaa/compare.tsx:154-159 | neutral exactly when there is no position or the answer is SKIP; match exactly on equal words; partial exactly when they differ and one is NEUTRAL |
| Compare.MatchStatusAgreesWithScoring | app/routes/vaa/compare.tsx:154-159 | the cell's status is match, partial or mismatch exactly as the engine scores 2, 1 or 0 |
| Compare.CellAgreesWithEngine | app/routes/vaa/compare.tsx:324 | a displayed cell for a stated answer agrees with the engine's points |
| Compare.UnansweredCell | app/routes/vaa/compare.tsx:324 | an unanswered statement shows neutral without a position, partial against NEUTRAL and mismatch otherwise |
| Compare.ByTopic | app/routes/vaa/compare.tsx:139-142 | exactly the statements of the topic; a single statement is kept exactly when it is of the topic |
| Compare.ByTopicAppend | app/routes/vaa/compare.tsx:139-142 | the filter distributes over concatenation, so the displayed statements keep their order and multiplicity |
| Compare.FilteredStatements | app/routes/vaa/compare.tsx:139-142 | "all" keeps every statement; a topic keeps exactly that topic's statements, as the order-keeping `ByTopic` filter |
| Compare.InitialSelection | app/routes/vaa/compare.tsx:98-100 | the first three parties' ids, or all when fewer |
| Compare.Toggled | app/routes/vaa/compare.tsx:144-152 | a selected party is removed, by the order-keeping `Without` filter, unless it is the last one; an unselected one is appended unless four are selected |
| Compare.WithoutMemberLength | app/routes/vaa/compare.tsx:147 | removing a present distinct id shortens the selection by one |
| Compare.ToggleKeepsValid | app/routes/vaa/compare.tsx:144-152 | a toggle keeps the selection distinct and between one and four |
| Compare.TogglesKeepValid | app/routes/vaa/compare.tsx:98-152 | starting from the initial selection, any sequence of toggles keeps it valid |
| Compare.Selection.constructor | app/routes/vaa/compare.tsx:98-100 | the selection starts as the initial selection |
| Compare.Selection.ToggleParty | app/routes/vaa/compare.tsx:144-152 | the new selection is exactly `Toggled` of the old one |
| CalculateApi.FindDbParty | app/routes/api/vaa/calculate.tsx:57 | a party is found exactly when some party has the id, and it is the first such party |
| CalculateApi.ApiTopicEntryOf | app/routes/api/vaa/calculate.tsx:60-72 | the entry keeps the scores and names its topic, or empty strings for an unknown topic |
| CalculateApi.ApiEnrich | app/routes/api/vaa/calculate.tsx:56-88 | the enriched result keeps the numbers, adds the party or null, and lists the breakdown in order |
| CalculateApi.Action | app/routes/api/vaa/calculate.tsx:9-95 | 405 for a non-POST; 500 for an unreadable body or a database failure; 400 without an answers object; otherwise 200 with the enriched ranking, and 200 only then |
| CalculateApi.MissingImportanceWeighsOne | app/routes/api/vaa/calculate.tsx:44 | without an importance object every topic weighs 1 |
| CalculateApi.ApiInactiveAnswerIgnored | app/routes/api/vaa/calculate.tsx:26-53 | an answer to an inactive statement changes no result |
| CalculateApi.ApiResultsRanked | app/routes/api/vaa/calculate.tsx:53-90 | a successful reply is ordered best first, each percentage ≤ 100 and points ≤ maximum |
| AdminPositions.BuildKeyMap | app/routes/admin/vaa/positions/index.tsx:37-41 | the key-map loop equals its specification map |
| AdminPositions.CompositeKeyInjective | app/routes/admin/vaa/positions/index.tsx:40 | dash-free statement ids make the composite key unambiguous |
| AdminPositions.LastPosition | app/routes/admin/vaa/positions/index.tsx:39-41 | there is no position exactly when no row gives the pair, else the last row's position |
| AdminPositions.KeyMapLastWins | app/routes/admin/vaa/positions/index.tsx:37-41 | a composite key is present exactly when some row gives the pair, and holds the last position |
| AdminPositions.DisplayedPosition | app/routes/admin/vaa/positions/index.tsx:221-222 | a grid cell shows NOT_SET without a row or for an empty position, else the last row's position |
| AdminPositions.Split | app/routes/admin/vaa/positions/index.tsx:57 | splitting yields at least one segment |
| AdminPositions.SplitSegmentsDashFree | app/routes/admin/vaa/positions/index.tsx:57 | no segment contains a dash |
| AdminPositions.SplitFieldName | app/routes/admin/vaa/positions/index.tsx:57 | a rendered field name splits into "pos", the statement id and the party id |
| AdminPositions.ParseFieldName | app/routes/admin/vaa/positions/index.tsx:55-64 | a rendered field name is a position field and parses back to its statement, party and value |
| AdminPositions.UpdatesOf | app/routes/admin/vaa/positions/index.tsx:55-64 | at most one update per form entry |
| AdminPositions.UpdatesOfAppend | app/routes/admin/vaa/positions/index.tsx:55-64 | the entries are parsed one by one, in form order |
| AdminPositions.UpdatesOfEntry | app/routes/admin/vaa/positions/index.tsx:56-62 | an entry is dropped unless its key starts with `pos-` and its value is non-empty; otherwise it gives exactly its parsed update |
| AdminPositions.ParseUpdates | app/routes/admin/vaa/positions/index.tsx:55-64 | the parsing loop equals the specification list of updates |
| AdminPositions.RenderedFormParses | app/routes/admin/vaa/positions/index.tsx:220-226 | a form of rendered cells with non-empty values parses into one update per cell, in order |
| AdminPositions.ApplyUpdate | app/routes/admin/vaa/positions/index.tsx:67-94 | NOT_SET deletes the pair (or does nothing when absent); any other value upserts it; no other pair changes |
| AdminPositions.LastUpdateFor | app/routes/admin/vaa/positions/index.tsx:67-94 | no update exactly when none targets the pair, else the last one that does |
| AdminPositions.LastUpdateWins | app/routes/admin/vaa/positions/index.tsx:67-94 | after all updates, a pair holds its last update's value, is absent when that was NOT_SET, and is unchanged when untouched |
| AdminPositions.PositionStore.constructor | app/routes/admin/vaa/positions/index.tsx:34 | the store holds the given positions |
| AdminPositions.PositionStore.ApplyUpdates | app/routes/admin/vaa/positions/index.tsx:67-94 | the store's new positions are the updates applied in order |
| AdminPositions.Action | app/routes/admin/vaa/positions/index.tsx:46-97 | parses the form, applies every update in order, and returns the number of updates |
| AdminStatements.FindStatement | app/routes/admin/vaa/statements/index.tsx:48 | a statement is found exactly when some row has the id, and it is the first such row |
| AdminStatements.DeletedMembers | app/routes/admin/vaa/statements/index.tsx:40-44 | deletion keeps exactly the rows with another id |
| AdminStatements.DeletedAbsent | app/routes/admin/vaa/statements/index.tsx:40-44 | deleting an absent id changes nothing |
| AdminStatements.DeletedDistinct | app/routes/admin/vaa/statements/index.tsx:40-44 | deletion keeps ids distinct |
| AdminStatements.DeletedLength | app/routes/admin/vaa/statements/index.tsx:40-44 | deleting a present id removes exactly one row |
| AdminStatements.Flipped | app/routes/admin/vaa/statements/index.tsx:46-56 | the row with the id has its active flag negated; every other row is unchanged |
| AdminStatements.ToggleTwice | app/routes/admin/vaa/statements/index.tsx:46-56 | toggling twice restores the rows |
| AdminStatements.FlippedKeepsDistinct | app/routes/admin/vaa/statements/index.tsx:46-56 | toggling keeps ids distinct |
| AdminStatements.InTopic | app/routes/admin/vaa/statements/index.tsx:67-68 | exactly the rows of the topic |
| AdminStatements.Siblings | app/routes/admin/vaa/statements/index.tsx:67-70 | the topic's rows, sorted by order, a permutation of them |
| AdminStatements.SortByOrderFacts | app/routes/admin/vaa/statements/index.tsx:69 | the sort's output is ordered and a permutation |
| AdminStatements.InsertOrderSorted | app/routes/admin/vaa/statements/index.tsx:69 | insertion keeps the order |
| AdminStatements.InsertOrderPermutes | app/routes/admin/vaa/statements/index.tsx:69 | insertion adds exactly the one row |
| AdminStatements.InsertOrderMembers | app/routes/admin/vaa/statements/index.tsx:69 | insertion adds one row and no other |
| AdminStatements.FindIndex | app/routes/admin/vaa/statements/index.tsx:72 | -1 when no sibling has the id, else the first index that does |
| AdminStatements.NewIndex | app/routes/admin/vaa/statements/index.tsx:73-76 | up moves one back and down one forward, clamped to the list |
| AdminStatements.SetOrder | app/routes/admin/vaa/statements/index.tsx:81-88 | setting an order changes no id and no length |
| AdminStatements.SetOrderAt | app/routes/admin/vaa/statements/index.tsx:81-88 | with distinct ids it changes exactly that row's order |
| AdminStatements.MoveOf | app/routes/admin/vaa/statements/index.tsx:67-76 | the siblings, the statement's index among them and the clamped target index |
| AdminStatements.ReorderAtEdge | app/routes/admin/vaa/statements/index.tsx:78 | moving past either end changes nothing |
| AdminStatements.NeighbourIsOther | app/routes/admin/vaa/statements/index.tsx:79 | the swap partner is another row of the same topic |
| AdminStatements.SwapBySetOrder | app/routes/admin/vaa/statements/index.tsx:80-89 | the two updates of the transaction exchange the two rows' orders |
| AdminStatements.SwapIndices | app/routes/admin/vaa/statements/index.tsx:78-90 | a move that is not at the edge exchanges the orders of two distinct rows of the same topic |
| AdminStatements.ReorderSwapsTwo | app/routes/admin/vaa/statements/index.tsx:58-93 | a reorder that is not at the edge exchanges the orders of the statement and its same-topic neighbour and changes nothing else |
| AdminStatements.OrderCountUpdate | app/routes/admin/vaa/statements/index.tsx:80-89 | replacing one row changes the order counts by that row alone |
| AdminStatements.SwapKeepsOrders | app/routes/admin/vaa/statements/index.tsx:80-89 | swapping two same-topic rows keeps each topic's multiset of order values |
| AdminStatements.ReorderKeepsOrders | app/routes/admin/vaa/statements/index.tsx:58-93 | a reorder keeps each topic's multiset of order values |
| AdminStatements.ReorderOnlyOrders | app/routes/admin/vaa/statements/index.tsx:58-93 | a reorder changes nothing but order values |
| AdminStatements.ReorderedDistinct | app/routes/admin/vaa/statements/index.tsx:58-93 | a reorder keeps ids distinct |
| AdminStatements.SwapOnlyOrders | app/routes/admin/vaa/statements/index.tsx:80-89 | the swap changes nothing but order values |
| AdminStatements.StatementStore.constructor | app/routes/admin/vaa/statements/index.tsx:34-37 | the store holds the given rows |
| AdminStatements.StatementStore.Delete | app/routes/admin/vaa/statements/index.tsx:40-44 | the row with the id is removed when present; ids stay distinct |
| AdminStatements.StatementStore.Toggle | app/routes/admin/vaa/statements/index.tsx:46-56 | the rows become `Flipped`; ids stay distinct |
| AdminStatements.StatementStore.Reorder | app/routes/admin/vaa/statements/index.tsx:58-93 | the rows become `Reordered`; ids stay distinct |
| AdminStatements.Action | app/routes/admin/vaa/statements/index.tsx:34-96 | a known intent without an `id` fails with no change; delete removes the row and answers deleted when the id exists, and otherwise fails with no change; toggle and reorder act as above and answer toggled and reordered, a missing direction moving down; any other intent changes nothing and answers null |
| AdminDashboard.CountActive | app/routes/admin/vaa/index.tsx:27 | the number of active statements: at most all of them, and all exactly when every one is active |
| AdminDashboard.Loader | app/routes/admin/vaa/index.tsx:14-56 | totals, the active count `CountActive`, overall coverage (0 when nothing is possible) and one coverage entry per party, in order |
| AdminDashboard.PartyIdSet | app/routes/admin/vaa/index.tsx:35-36 | exactly the ids of the parties |
| AdminDashboard.StatementIdSet | app/routes/admin/vaa/index.tsx:28 | exactly the ids of the statements |
| AdminDashboard.PartyCountsSum | app/routes/admin/vaa/index.tsx:35-46 | with distinct party ids and known parties, the per-party counts add up to the number of positions |
| AdminDashboard.SumCountsBound | app/routes/admin/vaa/index.tsx:35-46 | per-party counts bounded by b sum to at most parties × b |
| AdminDashboard.IdCountOne | app/routes/admin/vaa/index.tsx:36 | with distinct ids a known party is counted once |
| AdminDashboard.IdCountZero | app/routes/admin/vaa/index.tsx:36 | an unknown party is counted nowhere |
| AdminDashboard.SumCountsEmpty | app/routes/admin/vaa/index.tsx:35-46 | no positions give no counts |
| AdminDashboard.SumCountsAppend | app/routes/admin/vaa/index.tsx:35-46 | one more position adds its party's count |
| AdminDashboard.CountIsStatements | app/routes/admin/vaa/index.tsx:36 | with one row per pair, a party's count is the number of statements it has a position on |
| AdminDashboard.PositionedStatementsFrom | app/routes/admin/vaa/index.tsx:36 | every counted statement comes from a row of that party |
| AdminDashboard.StatementIdSetCard | app/routes/admin/vaa/index.tsx:28 | there are at most as many ids as statements |
| AdminDashboard.PartyCountBound | app/routes/admin/vaa/index.tsx:36-40 | a party has at most one position per statement |
| AdminDashboard.CoverageAtMostHundred | app/routes/admin/vaa/index.tsx:29-46 | overall and per-party coverage are at most 100 when rows are unique and refer to known statements and parties |

## Left out

- Browser session storage is a single-slot `SessionStore`. Its JSON round trip and the errors it swallows are not modelled.
- The persistence effect in app/routes/vaa/questionnaire.tsx:88-92, which saves the state after every change, is not modelled; `Session` keeps the state in a field.
- JSON and base64 are an abstract `Codec` parameter. `Lawful` requires that it round-trips and that `btoa` fails exactly on non-Latin-1 text. The bytes of the token are not modelled.
- The URL decoding of the token, including `+`, is not modelled. The loaders take the query value as given.
- Floating-point rounding: `Percent.RoundPercent` rounds the exact rational 100·part/whole half up. `Math.round` on a double can differ from this at exact halves, and that difference is not modelled.
- JS plain-object key order, where integer-like keys come first: records use insertion order throughout.
- A truthy `answers` field that is not an object is modelled only as "not an object". The code would iterate its properties.
- Answer values other than the four words cannot be expressed. `UserAnswer` holds only the four words.
- CalculateApi.Action: requires every stored position to be a valid word. The source's `as Position` cast assumes the same.
- AdminPositions.Action: requires every parsed update to carry a party segment. The source would send `undefined` to the database for a crafted key such as `pos-5`.
- AdminPositions.PositionStore.ApplyUpdates: requires the same as `AdminPositions.Action`.
- The database is a parameter holding lists of records. Authentication (`requireEditor`), all UI rendering and the statements' text fields are not modelled.
- Cascading deletes of a statement's positions are not modelled. The database schema is not part of this model.
- Sibling ties: sorting siblings with equal `order` keeps table order. The database's order among equal values is unspecified.
- The parties' name order is modelled as the order of the given list. The database sorts them by name.
- The welcome page loader and the other admin pages are not modelled. They are outside this core.
- The statements page's loader (app/routes/admin/vaa/statements/index.tsx:14-32) is not modelled. It is three database queries: statements sorted by topic name and order with their topic and position count, topics sorted by name, and the party count. It has no logic of its own beyond the query.
- The questionnaire's animation direction state is not modelled. It only drives UI transitions.
