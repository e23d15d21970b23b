# Quiet Presence Score: a verified model of the questionnaire engine

The Quiet Presence Score (QPS) scan asks a brand owner and up to three clients the same
yes / not sure / not really questions about five pillars of a brand: Presence, Digital, Space,
Narrative and Signature. It scores every pillar and every Growth Health Indicator (GHI) for each
respondent. It averages the clients, and compares the owner's view with the clients' view, pillar
by pillar and overall.

This project models, in Dafny, the core of that application:

- the constant tables of `lib/data.ts`;
- the scoring engine `computeScoresForAnswers` and the client average `averageClientScores` of `lib/utils.ts`;
- the state and reducer of `contexts/AppContext.tsx`;
- the decision logic of the components that drive the scan. These are the setup card, the question flow, the question card with its auto-advance timer, the role hand-off prompt and the summary screens.

Modules, one per source file:

| module | file | source |
|---|---|---|
| `Wrappers` | `wrappers.dfy` | `Option` and `Result` |
| `QpsData` | `data.dfy` | `lib/data.ts` |
| `Scoring` | `scoring.dfy` | `lib/utils.ts`, types and `computeScoresForAnswers` |
| `Aggregation` | `aggregation.dfy` | `lib/utils.ts`, `averageClientScores` |
| `AppContext` | `app_context.dfy` | `contexts/AppContext.tsx` |
| `SetupCard` | `setup_card.dfy` | `components/SetupCard.tsx` |
| `FlowCard` | `flow_card.dfy` | `components/FlowCard.tsx` |
| `RolePrompt` | `role_prompt.dfy` | `components/RolePrompt.tsx` |
| `QuestionCard` | `question_card.dfy` | `components/QuestionCard.tsx` |
| `SummaryLens` | `summary_lens.dfy` | `components/SummaryCard.tsx`, gaps, tones, pillar GHI lens |
| `SummaryCard` | `summary_card.dfy` | `components/SummaryCard.tsx`, results and screens |

How the source maps onto Dafny:

- **Scoring engine.** The loops of `computeScoresForAnswers` and `averageClientScores` are Dafny
  methods with loop invariants. Each method is proved equal to a specification function
  (`ScoresOf`, `AverageSpec`). The engine's promises are lemmas about those functions.
- **Reducer.** It is a transition function `Reduce(s, a)`. Its precondition `Defined(s, a)` names
  the states in which the TypeScript reducer returns instead of throwing:
  - `SET_ANSWER` and `RESET_PILLAR` read `currentRole!`;
  - `NEXT_QUESTION` and `PREV_QUESTION` index the question list of a pillar that may not exist.
- **Components.** Each is a function from the state to what it shows and what it dispatches while
  rendering. The question card and the timer ref it shares with the flow form the class
  `QuestionCard.Session`, whose methods update the state, the ref and the set of live timers.
- **Scores.** They are `real`s. An answered score is `int`.

Behaviour of the code that a reader might not expect:

- **Summary navigation.** `NEXT_PILLAR_SUMMARY` goes from a pillar card to the next pillar card, or to
  the overall stage. It never passes through the pillar's GHI lens, which has its own button
  (`AppContext.NextPillarSummaryFacts`).
- **Pending advance.** A scheduled auto-advance is not cancelled by Next or Back. Answering and then
  pressing Next before the timer fires advances two questions
  (`QuestionCard.AnswerThenNextAdvancesTwice`).
- **Reaching the summary.** Some paths end in an undefined lookup rather than in a valid state. The
  model shows these as explicit views (`FlowCard.View.MissingQuestion`,
  `SummaryCard.Screen.UndefinedPillar`) or as a `Defined` precondition.

Further behaviour of the code that the model keeps and exhibits:

- `ADD_CLIENT` computes the extended role sequence but stores the old one
  (`AppContext.AddClientDropsSequence`).
- An averaged pillar keeps the first qualifying client's label
  (`Aggregation.AveragedLabelKeepsFirstClient`).
- An explicitly chosen scope is not checked against the selection
  (`SetupCard.ExplicitScopeNotRechecked`).

## Model

| member | source | states |
|---|---|---|
| QpsData.CanonicalIndex | lib/data.ts:89 | every pillar has a position in `orderedPillars` and sits at that position |
| QpsData.PillarWeight | lib/data.ts:91-97 | every pillar weight is positive |
| QpsData.AnswerScore | lib/data.ts:99-103 | answer scores are even and lie in [0, 4]; 4 exactly for yes, 0 exactly for no |
| QpsData.QuestionIdShape | lib/data.ts:1-87 | every pillar has five questions, and question i's id is the pillar tag followed by digit i+1 |
| QpsData.OrderedPillarsListEveryPillarOnce | lib/data.ts:89 | `orderedPillars` lists the five pillar keys once each, in the canonical order, and the keys are distinct |
| QpsData.QuestionIdsDistinct | lib/data.ts:1-87 | the 25 question ids are pairwise distinct across pillars |
| QpsData.OwnerOfIsOwner | lib/data.ts:1-87 | the pillar found for an id is exactly the pillar whose list holds that id |
| QpsData.GiMapWellFormed | lib/data.ts:131-142 | GI_MAP has ten entries of two or three distinct ids, each the id of some pillar's question |
| QpsData.GiMapNamesMatchIndicators | lib/data.ts:105-142 | GI_MAP's names are GHI_INDICATORS in order, and each has a GI_DESC entry |
| Scoring.Answers.With | lib/utils.ts:11-16 | replacing one role's bundle leaves the other roles' bundles unchanged |
| Scoring.MapRoleToPerspective | lib/utils.ts:35-38 | the first-person phrasing is chosen exactly for the owner |
| Scoring.ActivePillars | lib/utils.ts:40-42 | the active list holds exactly the selected pillars, in canonical order, without repeats |
| Scoring.SelectIn | lib/utils.ts:40-42 | filtering keeps exactly the selected members of the list, in its order |
| Scoring.ActiveCount | lib/utils.ts:40-42 | the active list is as long as the selection is large |
| Scoring.FiveSelectedIsAll | lib/utils.ts:40-42 | a selection of size five is the whole set of pillars, and the converse |
| Scoring.Grade | lib/utils.ts:100-113 | the grades split the scores: missing when null, Strong at 3.2 and above, Steady from 2.2 below 3.2, Underpowered below 2.2 |
| Scoring.Mean | lib/utils.ts:99 | the mean is null exactly for an empty list |
| Scoring.MeanBounds | lib/utils.ts:99 | a mean of values in [lo, hi] lies in [lo, hi] |
| Scoring.AnsweredScores | lib/utils.ts:91-97 | the tally has at most one entry per id, each in [0, 4] |
| Scoring.PillarsOfEntries | lib/utils.ts:85-125 | the pillar dictionary has exactly the active keys, each holding its own pillar's summary |
| Scoring.Resolve | lib/utils.ts:143-153 | an id resolves to an active pillar that owns it, and to none exactly when no active pillar owns it |
| Scoring.IndicatorValues | lib/utils.ts:140-154 | an indicator collects at most one value per id, each in [0, 4] |
| Scoring.TallyPillar | lib/utils.ts:88-97 | the loop's total and count are the sum and length of the tally of answered ids |
| Scoring.ResolvedValues | lib/utils.ts:140-154 | the loop collects exactly the indicator's values |
| Scoring.ResolveOne | lib/utils.ts:142-154 | the first active pillar owning the id decides, and its stored answer, when present, is the id's only value |
| Scoring.SummarisePillar | lib/utils.ts:86-124 | one pass builds exactly the pillar's summary |
| Scoring.SummarisePillars | lib/utils.ts:83-125 | the first loop builds exactly the pillar dictionary |
| Scoring.WeightedGlobal | lib/utils.ts:127-137 | the weighted loop yields exactly the global score |
| Scoring.ScoreIndicator | lib/utils.ts:139-168 | one pass builds exactly the indicator's result |
| Scoring.ScoreIndicators | lib/utils.ts:139-169 | the map yields one result per indicator, in order |
| Scoring.ComputeScoresForAnswers | lib/utils.ts:78-182 | the method's result is the specified result for the same bundle, pillars and role |
| Scoring.AnsweredScoresIgnoreForeign | lib/utils.ts:91-97 | an answer stored under an id outside the list never changes the tally |
| Scoring.AnsweredCount | lib/utils.ts:88-97 | with distinct ids the count is the number of answered ids |
| Scoring.AnsweredNone | lib/utils.ts:88-97 | the tally is empty exactly when none of the ids has an answer |
| Scoring.AllAnsweredScores | lib/utils.ts:91-97 | when every id is answered, the tally lists their scores in id order |
| Scoring.PillarEntryFacts | lib/utils.ts:85-125 | a pillar summary counts only its own answered questions (at most five); its score is null exactly when none is answered and otherwise lies in [0, 4]; Incomplete exactly when none is answered |
| Scoring.ForeignIdIgnored | lib/utils.ts:91-97 | storing an answer under another pillar's id leaves the pillar's summary unchanged |
| Scoring.WeightedTotalsFacts | lib/utils.ts:127-136 | the total weight is never negative, and positive exactly when some active pillar scored |
| Scoring.WeightedTotalsBounds | lib/utils.ts:127-136 | with every contributing pillar score in [lo, hi], the weighted total lies between lo and hi times the total weight |
| Scoring.GlobalFromBetween | lib/utils.ts:127-137 | over summaries whose non-null scores lie in [lo, hi], the global score, when not null, lies in [lo, hi] too |
| Scoring.GlobalFromFacts | lib/utils.ts:127-137 | over summaries scored in [0, 4], the global score is null exactly when no pillar scored, and otherwise lies in [0, 4] |
| Scoring.GlobalScoreFacts | lib/utils.ts:127-137 | the global score is null exactly when every active pillar score is null, and otherwise lies in [0, 4] |
| Scoring.GlobalBetween | lib/utils.ts:127-137 | the global score is a weighted mean: it lies between the least and the greatest of the non-null active pillar scores (any bounds of those scores bound it) |
| Scoring.ResolveByOwnership | lib/utils.ts:143-153 | because ids are unique, an id resolves to a pillar exactly when that pillar is active and owns the id |
| Scoring.IndicatorValuesEmpty | lib/utils.ts:140-154 | an indicator has no values exactly when none of its ids has an answer in the pillar it resolves to |
| Scoring.IndicatorFacts | lib/utils.ts:139-169 | there is one indicator per GI_MAP entry, in order and with its name; its score is null (Unknown) exactly when no id has a resolved answer, and otherwise lies in [0, 4] |
| Scoring.ScoresShape | lib/utils.ts:171-181 | the result carries the role and the active list, has exactly the active pillars each with its own summary, and has ten indicators |
| Scoring.AllYesIsStrong | lib/utils.ts:85-125 | five yes answers score 4.00, Strong |
| Scoring.ThreeYesTwoNoIsSteady | lib/utils.ts:85-125 | three yes and two no answers score 2.40, Steady |
| Scoring.FivePresenceScores | lib/utils.ts:91-97 | five answered Presence questions are tallied in question order |
| Aggregation.PerClient | lib/utils.ts:190-194 | there is one element per client role |
| Aggregation.Present | lib/utils.ts:196 | filtering the nulls never lengthens the list |
| Aggregation.PresentMembers | lib/utils.ts:196 | every kept element was non-null in the list, and nothing is kept exactly when all are null |
| Aggregation.PerClientMembers | lib/utils.ts:190-194 | each element is that role's result, or null when it answered no active pillar |
| Aggregation.QualifyingMembers | lib/utils.ts:188-196 | every qualifying result is the scores of a client role that has an entry for an active pillar |
| Aggregation.QualifyingShaped | lib/utils.ts:188-196 | every qualifying result carries every active pillar and ten indicators |
| Aggregation.AvgPillarsEntries | lib/utils.ts:199-208 | the averaged pillars are keyed by exactly the active pillars; each is the first client's summary carrying the column average |
| Aggregation.AnyActiveEntry | lib/utils.ts:192 | the loop finds an entry exactly when some active pillar has one |
| Aggregation.MeanColumn | lib/utils.ts:201-206 | the sum/count loop yields the column's skip-null mean |
| Aggregation.ScoreClients | lib/utils.ts:190-194 | the loop builds exactly `perClient` |
| Aggregation.DropNulls | lib/utils.ts:196 | the loop keeps exactly the non-null results, in order |
| Aggregation.AveragePillars | lib/utils.ts:199-208 | the loop builds exactly the averaged pillars |
| Aggregation.AverageIndicators | lib/utils.ts:210-229 | the loop builds exactly the averaged indicators |
| Aggregation.AverageClientScores | lib/utils.ts:184-244 | the method's result is the specified average |
| Aggregation.SumCountZero | lib/utils.ts:201-206 | the count is zero exactly when every client's cell is null |
| Aggregation.SumCountBounds | lib/utils.ts:201-206 | the running sum lies between 0 and 4 times the count |
| Aggregation.MeanOfFacts | lib/utils.ts:201-206 | a column average is null exactly when every cell is null, and otherwise lies in [0, 4] |
| Aggregation.AverageNullIff | lib/utils.ts:196-197 | the average is null exactly when no client role has an entry for an active pillar |
| Aggregation.OwnerIgnored | lib/utils.ts:188 | the owner's answers play no part in the average |
| Aggregation.MeanOfSingle | lib/utils.ts:201-206 | a one-element column averages to its own cell |
| Aggregation.QualifyingByRole | lib/utils.ts:188-196 | the qualifying results are client 1, 2 and 3's results, in that order, nulls dropped |
| Aggregation.AverageOfOne | lib/utils.ts:199-236 | averaging one result reproduces its pillars, indicators and global score |
| Aggregation.QualifyingSingle | lib/utils.ts:188-196 | when exactly one client qualifies, its result is the only qualifying one |
| Aggregation.SingleClientIdentity | lib/utils.ts:184-244 | with exactly one qualifying client, the average is that client's own result under the average's role |
| Aggregation.AverageInRange | lib/utils.ts:199-236 | every averaged pillar, indicator and global score lies in [0, 4], and all active pillars and ten indicators are present |
| Aggregation.CellInRange | lib/utils.ts:78-182 | every cell of a role's result lies in [0, 4] |
| Aggregation.TwoClientPillarAverage | lib/utils.ts:199-208 | clients at 4.00 and 0.00 on a pillar average 2.00, under the first client's summary |
| Aggregation.AveragedPillar | lib/utils.ts:199-208 | an averaged pillar is the first qualifying client's summary carrying the column mean |
| Aggregation.SplitClientsQualify | lib/utils.ts:188-196 | clients 1 and 2 with Presence entries qualify and client 3 without one does not |
| Aggregation.PresenceScoreOf | lib/utils.ts:85-125 | all Presence questions answered alike score that answer's value |
| Aggregation.PresenceEntryScore | lib/utils.ts:85-125 | five equal answers to the Presence questions average to that answer's score |
| Aggregation.AveragedLabelKeepsFirstClient | lib/utils.ts:207 | the averaged pillar's label is the first client's (Strong), while its averaged score 2.00 grades Underpowered |
| AppContext.IndexOf | contexts/AppContext.tsx:166 | the index is the first position of the element |
| AppContext.InitialStateOk | contexts/AppContext.tsx:7-27 | the initial state has its cursors in range and no empty pillar entry |
| AppContext.PrevDefinedUnderCursors | contexts/AppContext.tsx:116-136 | with the cursors in range, PREV_QUESTION always has a previous pillar to read |
| AppContext.CursorsPreserved | contexts/AppContext.tsx:46-210 | every defined action keeps the cursors in range, TOGGLE_PILLAR only at pillar 0 |
| AppContext.ToggleCanBreakCursors | contexts/AppContext.tsx:52-60 | a toggle that empties the selection under pillar cursor 1 leaves the cursor out of range |
| AppContext.NoEmptyEntriesPreserved | contexts/AppContext.tsx:46-210 | no action stores a pillar entry without answers |
| AppContext.ToggleFlips | contexts/AppContext.tsx:52-60 | TOGGLE_PILLAR flips exactly its key and changes nothing else |
| AppContext.ToggleTwice | contexts/AppContext.tsx:52-60 | toggling a key twice restores the state |
| AppContext.StartFlowFacts | contexts/AppContext.tsx:63-78 | START_FLOW starts with the owner exactly for the brand itself, otherwise with client 1, at the first pillar's intro, keeping the answers |
| AppContext.SetAnswerFacts | contexts/AppContext.tsx:79-94 | SET_ANSWER records the answer for the current role, pillar and question, creating the entry; every other answer and field is unchanged |
| AppContext.SetAnswerIdempotent | contexts/AppContext.tsx:79-94 | recording the same answer twice equals recording it once |
| AppContext.ResetFacts | contexts/AppContext.tsx:137-153 | RESET_PILLAR removes the current role's entry for the pillar under the cursor and returns to its intro; all else is unchanged |
| AppContext.ResetRemovesEntry | contexts/AppContext.tsx:137-153 | on a pillar with an entry, RESET_PILLAR leaves the current role's bundle without that entry and returns to the intro |
| AppContext.Replay | contexts/AppContext.tsx:79-94 | re-entering answers takes one SET_ANSWER per id |
| AppContext.MergeFacts | contexts/AppContext.tsx:79-94 | successive answers overwrite the replayed ids and keep the others |
| AppContext.ReplayEffect | contexts/AppContext.tsx:79-94 | replaying answers merges them into the pillar's entry and changes nothing else |
| AppContext.ResetThenReplay | contexts/AppContext.tsx:79-153 | resetting a pillar and re-entering its old answers, in any order, rebuilds the same answers |
| AppContext.NextQuestionFacts | contexts/AppContext.tsx:95-115 | NEXT_QUESTION moves to the next question, else to the next pillar's intro, else past the last pillar; only the cursors change |
| AppContext.PrevQuestionFacts | contexts/AppContext.tsx:116-136 | PREV_QUESTION moves back one question, else to the previous pillar's last question, and at the first question of the first pillar changes nothing |
| AppContext.PrevUndoesNext | contexts/AppContext.tsx:95-136 | PREV_QUESTION undoes NEXT_QUESTION from any question before the last |
| AppContext.SuccessorChain | contexts/AppContext.tsx:155 | the successor map is a chain of four roles ending at client 3, the only role without a successor |
| AppContext.AddClientFacts | contexts/AppContext.tsx:154-170 | ADD_CLIENT does nothing at client 3 or without a role; otherwise it moves to the successor at the first intro, keeps the stored sequence and answers, and indexes the successor in the extended sequence |
| AppContext.AddClientDropsSequence | contexts/AppContext.tsx:159-169 | after starting as the brand and adding a client, the stored sequence still lists only the owner while the index is 1 |
| AppContext.EnterSummaryFacts | contexts/AppContext.tsx:171-176 | ENTER_SUMMARY opens the first pillar card in summary mode |
| AppContext.NextPillarSummaryFacts | contexts/AppContext.tsx:182-197 | NEXT_PILLAR_SUMMARY goes to the next pillar card, or to the overall stage at index 0; never to the pillar GHI stage |
| AppContext.PrevPillarSummaryFacts | contexts/AppContext.tsx:198-204 | PREV_PILLAR_SUMMARY is a no-op at index 0 and otherwise moves back one pillar card |
| AppContext.PillarSummaryRoundTrip | contexts/AppContext.tsx:182-204 | next then previous between pillar cards returns to the same state |
| AppContext.SummaryStageAndRestart | contexts/AppContext.tsx:177-206 | SET_SUMMARY_STAGE changes only the stage, and RESTART returns the initial state |
| SetupCard.ToggleMissing | components/SetupCard.tsx:17-22 | the full-scope pass toggles exactly the pillars missing from the snapshot and ends with all five selected |
| SetupCard.ToggleSelected | components/SetupCard.tsx:23-28 | the custom-scope pass toggles exactly the snapshot's pillars and ends with none selected |
| SetupCard.HandleScopeClick | components/SetupCard.tsx:15-30 | SET_SCOPE then toggles: full selects all five; custom from five selects none; custom otherwise changes only the scope |
| SetupCard.HandleStartFacts | components/SetupCard.tsx:36-53 | start is refused exactly for an empty selection; otherwise it starts on the selection, as the brand by default, and with the full scope by default exactly for five pillars |
| SetupCard.HandleStartEntersFlow | components/SetupCard.tsx:36-53 | a successful start enters the flow at the first intro, with the owner unless a client respondent was chosen |
| SetupCard.ExplicitScopeNotRechecked | components/SetupCard.tsx:42 | an explicitly chosen full scope passes through with one pillar selected |
| SetupCard.SummaryTextCases | components/SetupCard.tsx:55-61 | the full-scan line exactly for five pillars, the prompt exactly for none, and otherwise the selected names in canonical order |
| FlowCard.RenderCases | components/FlowCard.tsx:25-61 | each screen is shown exactly under its condition: summary, role prompt, pillar intro, question, nothing while advancing |
| FlowCard.QuestionViewFacts | components/FlowCard.tsx:40-61 | a question screen shows the selected pillar under the cursor and the question at the cursor's position, owned by that pillar |
| FlowCard.RenderDispatch | components/FlowCard.tsx:31-50 | rendering dispatches ENTER_SUMMARY exactly for a client respondent past the last pillar, NEXT_QUESTION exactly past the last question, and both are defined |
| FlowCard.RenderUnderCursors | components/FlowCard.tsx:43-52 | with the cursors in range, rendering never advances by itself and never misses a question |
| FlowCard.RenderSettles | components/FlowCard.tsx:31-50 | after a dispatch from rendering, the flow settles on the summary, a role prompt or an intro within one more dispatch |
| FlowCard.ClientFinishGoesToSummary | components/FlowCard.tsx:31-37 | a client respondent finishing the last pillar is sent to the summary |
| FlowCard.OwnerFinishGoesToPrompt | components/FlowCard.tsx:31-33 | the brand finishing the last pillar is shown the role prompt |
| RolePrompt.PromptCases | components/RolePrompt.tsx:9-68 | the owner is invited to add client 1; clients 1 and 2 are offered their successor; client 3 and a missing role reach the limit |
| RolePrompt.OfferedMatchesReducer | components/RolePrompt.tsx:16-68 | every prompt offers the results, and offers a client exactly when ADD_CLIENT would change the role |
| RolePrompt.AcceptHandsOver | components/RolePrompt.tsx:16-52 | accepting hands over to the named role, one step along the chain, at the first intro |
| RolePrompt.AddClientRole | contexts/AppContext.tsx:154-170 | ADD_CLIENT moves the respondent to the next role of the chain, and keeps it when there is none |
| RolePrompt.ThreeClientsThenLimit | components/RolePrompt.tsx:16-74 | from the owner, three accepted offers reach client 3 and the limit |
| RolePrompt.StepPillDistinct | components/RolePrompt.tsx:74 | two roles show the same pill exactly when they are the same role |
| QuestionCard.PhrasingFacts | components/QuestionCard.tsx:19-20 | the first-person text is shown exactly to the owner |
| QuestionCard.ExistingAfterAnswer | components/QuestionCard.tsx:24-25 | after answering, the question shows the new answer selected and every other question shows what it did |
| QuestionCard.AnswerKeepsView | components/QuestionCard.tsx:31-35 | recording an answer keeps the flow on the same question |
| QuestionCard.BackDisabledIffNoop | components/QuestionCard.tsx:97-104 | Back is disabled exactly when PREV_QUESTION would change nothing |
| QuestionCard.ProgressBounds | components/QuestionCard.tsx:61-68 | the pillar and question numbers are 1-based and within their totals |
| QuestionCard.Session.constructor | components/FlowCard.tsx:15 | the flow starts on the given state with an empty timer ref and no timer scheduled |
| QuestionCard.Session.Settle | components/QuestionCard.tsx:46-52 | leaving the questions clears the timer held in the ref |
| QuestionCard.Session.Answer | components/QuestionCard.tsx:31-44 | answering records the answer, clears the pending timer and leaves one fresh timer live |
| QuestionCard.Session.Fire | components/QuestionCard.tsx:41-43 | a live timer dispatches NEXT_QUESTION and leaves no timer live |
| QuestionCard.Session.Next | components/QuestionCard.tsx:105 | Next dispatches NEXT_QUESTION and does not touch the pending timer while a question is shown |
| QuestionCard.Session.Back | components/QuestionCard.tsx:97-104 | Back does nothing when disabled and otherwise dispatches PREV_QUESTION |
| QuestionCard.Session.Reset | components/QuestionCard.tsx:108 | Reset returns to the pillar's intro and clears the timer |
| QuestionCard.AnswerThenNextAdvancesTwice | components/QuestionCard.tsx:31-44 | answering and then pressing Next before the delay moves two questions on |
| QuestionCard.TwoAnswersAdvanceOnce | components/QuestionCard.tsx:37-43 | two quick answers leave only the second timer, which advances once, with the second answer stored |
| SummaryLens.Abs | components/SummaryCard.tsx:68-70 | the absolute value is non-negative and equals the value or its negation |
| SummaryLens.GapFacts | components/SummaryCard.tsx:68-70 | the gap is defined exactly when both sides are; it is symmetric, zero exactly when they agree, and within [0, 4] |
| SummaryLens.ToneBands | components/SummaryCard.tsx:72-76 | the readings split the gaps: none, 1.0 and above, 0.4 to 1.0, below 0.4 |
| SummaryLens.ToneExample | components/SummaryCard.tsx:72-76 | 3.5 against 1.9 is a strong gap of 1.6; 2.0 against 2.3 is aligned either way |
| SummaryLens.IdsHere | components/SummaryCard.tsx:170 | the kept ids are exactly the indicator's ids that are questions of the pillar |
| SummaryLens.RoleScoresFor | components/SummaryCard.tsx:180-184 | one value at most per role, each in [0, 4] |
| SummaryLens.ClientVals | components/SummaryCard.tsx:176-189 | at most one client value per id |
| SummaryLens.MeanReal | components/SummaryCard.tsx:185-187 | the mean is null exactly for an empty list |
| SummaryLens.LensOf | components/SummaryCard.tsx:169-229 | at most one card per indicator |
| SummaryLens.ClientAverageFor | components/SummaryCard.tsx:180-188 | the loop yields the clients' mean for the question |
| SummaryLens.CollectVals | components/SummaryCard.tsx:176-189 | the loop yields the owner's answered scores and the clients' per-question means |
| SummaryLens.LensCardFor | components/SummaryCard.tsx:170-228 | one pass yields the indicator's card |
| SummaryLens.PillarGhiLens | components/SummaryCard.tsx:167-229 | the loop yields the cards of the lens |
| SummaryLens.LensEntryPresence | components/SummaryCard.tsx:170-171 | an indicator gets a card exactly when one of its ids belongs to the pillar, under its own name |
| SummaryLens.SinglePillarValues | components/SummaryCard.tsx:170-178 | resolving against the pillar alone keeps exactly the pillar's own ids |
| SummaryLens.OwnerLensIsSinglePillarIndicator | components/SummaryCard.tsx:177-193 | the owner's lens score is the owner's indicator score with only this pillar selected |
| SummaryLens.RoleScoresForEmpty | components/SummaryCard.tsx:180-186 | no value exactly when no listed role answered the question |
| SummaryLens.ClientMeanFacts | components/SummaryCard.tsx:180-188 | the clients' mean exists exactly when some client answered, and lies in [0, 4] |
| SummaryLens.ClientValsInRange | components/SummaryCard.tsx:176-189 | every client value lies in [0, 4] |
| SummaryLens.MeanRealBounds | components/SummaryCard.tsx:193-194 | a mean of values in [0, 4] lies in [0, 4] |
| SummaryLens.LensEntryInRange | components/SummaryCard.tsx:190-201 | every score and gap on a card lies in [0, 4]; the gap exists exactly when both scores do; the reading matches the gap |
| SummaryLens.LensOfSound | components/SummaryCard.tsx:169-229 | every card is the card of one of the indicators |
| SummaryLens.LensOfComplete | components/SummaryCard.tsx:169-229 | every indicator touching the pillar has its card in the lens |
| SummaryCard.AnsweredRoles | components/SummaryCard.tsx:15-18 | the kept roles are exactly the listed roles with a stored entry |
| SummaryCard.ClientsAvgIsAverage | components/SummaryCard.tsx:15-28 | the summary's average equals `averageClientScores` even though it filters on any stored entry |
| SummaryCard.ResultsFacts | components/SummaryCard.tsx:14-36 | the owner has results exactly when it stored an entry; the details list each client that did, in order, with its label and its results |
| SummaryCard.AnsweredClientQualifies | lib/utils.ts:188-196 | a client that answered a question of an active pillar takes part in the average |
| SummaryCard.PillarAverageIff | components/SummaryCard.tsx:67 | a pillar's client average is defined exactly when some client answered one of its questions |
| SummaryCard.AverageCellIff | lib/utils.ts:199-208 | the averaged pillar cell is defined exactly when some qualifying result has that cell |
| SummaryCard.QualifyingCellIff | lib/utils.ts:188-196 | some qualifying result has the pillar cell exactly when some client answered one of the pillar's questions |
| SummaryCard.AnsweredGivesCell | lib/utils.ts:188-196 | a client that answered one of the pillar's questions contributes a pillar cell to the average |
| SummaryCard.CellGivesAnswered | lib/utils.ts:188-196 | a qualifying pillar cell comes from a client that answered one of the pillar's questions |
| SummaryCard.RouteCases | components/SummaryCard.tsx:38-482 | the summary shows the no-pillar card exactly when nothing is selected, and otherwise its stage's card; it dispatches only the move to overall |
| SummaryCard.RoutePillarScreens | components/SummaryCard.tsx:56-266 | the two pillar stages show the cards built for the pillar under the cursor |
| SummaryCard.RouteOverallScreens | components/SummaryCard.tsx:268-458 | the overall stages and the final stage show the cards they build |
| SummaryCard.RedirectSettles | components/SummaryCard.tsx:58-61 | after the redirect the overall card shows and nothing more is dispatched |
| SummaryCard.PillarCardFacts | components/SummaryCard.tsx:62-135 | the pillar card shows the owner's score, each client's score, the average and their gap for the pillar under the cursor; Back is enabled except on the first |
| SummaryCard.TableOwner | components/SummaryCard.tsx:65 | a selected pillar's owner cell is the owner's own pillar score once the owner has results, and null before |
| SummaryCard.TableClient | components/SummaryCard.tsx:84-90 | a selected pillar's cell for a client is that client's own pillar score once it has results, and null before |
| SummaryCard.PillarGapIff | components/SummaryCard.tsx:65-76 | the pillar's gap is sized exactly when the owner and some client answered one of its questions |
| SummaryCard.PillarGhiFacts | components/SummaryCard.tsx:162-229 | the lens is drawn exactly when both sides have results, and then is the lens of that pillar |
| SummaryCard.OverallCardFacts | components/SummaryCard.tsx:268-295 | one row per selected pillar in order, each with its gap, and the global scores with their gap and reading |
| SummaryCard.OverallGhiFacts | components/SummaryCard.tsx:359-372 | indicator cards are drawn exactly when both sides have results, pairing owner and average by position with matching names |
| SummaryCard.FinalPayloadFacts | components/SummaryCard.tsx:440-456 | the payload holds the owner's results exactly when it answered and the average exactly when it is defined; meta records the run |
| SummaryCard.FinalPayloadClients | components/SummaryCard.tsx:449-455 | the payload holds a client's own results exactly when that client stored an entry |
| SummaryCard.ClientDetailsAt | components/SummaryCard.tsx:30-36 | the details list a client exactly when it stored an entry, carrying that client's own results |
| SummaryCard.ButtonsAreMoves | components/SummaryCard.tsx:49-475 | every button dispatches a summary move; the lens is opened only on a selected pillar |
| SummaryCard.MovesKeepSummaryOk | components/SummaryCard.tsx:133-475 | entering the summary and every summary move keep the lens cursor on a selected pillar |
| SummaryCard.PillarCardNavigation | components/SummaryCard.tsx:139-259 | the GHI button shows the same pillar's lens, its back button returns to the same card, and Next reaches overall exactly from the last pillar |
| SummaryCard.GhiOfPillarCard | components/SummaryCard.tsx:140-145 | the GHI button of a pillar card opens the lens of the same pillar with the same number |
| SummaryCard.GhiBackToPillarCard | components/SummaryCard.tsx:247 | going back from the lens restores the very state the pillar card was shown in |
| SummaryCard.NextFromPillarCard | components/SummaryCard.tsx:153-155 | the next button leads to the overall card exactly from the last pillar |

## Left out

- Presentation components are not part of this model: `app/page.tsx` (mode routing), `GHIGuide`, `HeroCard`, `IntroCard`, `PillarIntro` and `RulesCard` show static content or dispatch single actions, which the reducer model covers.
- `lib/pdfGenerator.ts` and the PDF buttons are not modelled; they render documents and dispatch nothing.
- The prose is not modelled: question wording, pillar taglines, notes, indicator descriptions and the tone sentences. Labels and readings are enumerations.
- `fmtScore` and `toFixed(2)` formatting are not modelled. Scores are exact reals, not rounded strings.
- The 600 ms delay, `setTimeout` and `clearTimeout` are replaced by timer handles and a set of live timers. Time itself is not modelled.
- The alert of the start guard is the `Err` result of `SetupCard.HandleStart`.
- The payload's `timestamp` and its JSON text and key order are not modelled.
- The clearing of the timer ref by `AppProvider`, and by FlowCard's own unmount effect, is not modelled. It runs only when the whole flow unmounts.
- QuestionCard.Session.Fire: a handle that was already cleared does not fire; the model has no expired handles.
- React rendering details are not modelled: memoisation, re-render scheduling, and a dispatch issued during render taking effect before the next render. A dispatch during render is the `dispatched` part of a frame.
- JavaScript number rounding is not modelled. Sums and means are exact; `gap >= 1.0` and the grading thresholds are compared exactly.
