# Tutoring orchestrator: a verified model

The repository is the back end of a tutoring chat: a student talks to a language model over a WebSocket while a policy
decides, turn by turn, what the model may say. This project models its four stateful parts and proves what they
promise over every input, every chunking of a stream, every run and every interleaving.

| part | modules |
|---|---|
| text transforms of one reply: sentence splitting, output interceptors, speech stream, closing-marker filter | `Text`, `Sentences`, `Interceptors`, `GuardrailTriggers`, `AudioStream`, `TurnStream` |
| the per-turn policy: scores, recovery, phases, hint ladder, questions, rules, and whole runs of it | `PolicyTypes`, `PolicyAutomata`, `Questions`, `Engine`, `TurnDecisions`, `PolicyRuns`, `LadderSafety`, `ClosureLiveness`, `ClosureGate`, `QuestionRuns`, `SteadyRuns`, `RecoveryOutput`, `Metrics`, `Persistence`, `PolicySession` |
| the WebSocket turn protocol | `TurnProtocol`, `TurnOutcomes` |
| the session lifecycle shared by connection, deadline worker, evaluator, administrator and teacher | `Lifecycle`, `RowWrites`, `LifecycleGuarantees`, `Backend`, `Cohort`, `SweptCohort` |
| two smaller protocols | `TurnCache`, `CacheRuns`, `CursorPaging` |

Code that changes things step by step is modelled by classes and loops (`Engine.Evaluate`, `TurnProtocol.SessionLoop`,
`TurnStream.AudioSession`, `Metrics.MetricsCollector`, `PolicySession.ChatSession`, `Backend.Tables`,
`TurnCache.Adapter`), each method proved against a specification function; the results about runs and interleavings are
lemmas about those functions. In the protocols one event is one uninterrupted stretch between two awaits, or one
database transaction; an event that cannot happen in a state leaves the state as it is, so every sequence of events is
an interleaving.

## What the proofs found in the code

- The sentence stream equals the batch split exactly when no chunk ends in `.`, `?` or `!` with a non-space next
  (`AudioStream.Wrap`, `AudioStream.SplitsInsideIff`); otherwise it is strictly finer.
- The planned question is appended twice exactly when the reply is rhetorical and either opens with a direct-answer
  phrase, or does not become open by the append: the question is not open, nor are the broken-off end of the reply and
  its first sentence together (`Interceptors.AppendedTwiceIff`). The comment at `src/policy/engine.py:128-132` calls the
  second pass a no-op.
- The interceptors do not check what they append: with a planned question that is not open, such as `recover_01`
  (`src/policy/questions/bank.py:376-384`), the guarded output may ask nothing open (`Interceptors.AsksOpenlyIff`). A run
  reaches such a turn (`RecoveryOutput.RecoveryTurnIsReached`).
- A direct-answer opening is matched without a word boundary, so "la respuesta esconde" counts as one and has the planned
  question appended to an open reply (`GuardrailTriggers.DirectOpeningIff`).
- The correction sent to the client is the exact one only if the reply's trailing space opens the appended part; one
  trailing blank loses a character (`TurnStream.ShownTextIff`, `Interceptors.BlankLosesCharacter`).
- A closing marker followed by more than 8 blanks reaches the client (`TurnStream.MarkerReachesClientIff`).
- A streamed marker finalizes the session on turns that closure was not offered on, recovery and planning included: only
  the turn count is checked again (`ClosureGate.FinalizesIff`), against `src/policy/engine.py:448-452`.
- The placeholder question of a procedural hand-off is sent to the student whenever the reply is rhetorical
  (`Engine.PlaceholderReachesStudentIff`).
- A demand for the answer without an attempt goes unguarded on a hand-off and when it stays on the last rung, where the
  turn asks for an attempt all the same (`Engine.DemandUnguardedIff`).
- Both cooldowns allow one firing in three turns; `src/policy/cooldown.py:4` and `src/policy/rules/procedural_unblock.py:18-19`
  speak of one in two (`PolicyRuns.FiringRate`, attained by `SteadyRuns.ToneRateIsTight` and
  `SteadyRuns.HandOffRateIsTight`).
- Two procedural requests in the last four turns do not fire the hand-off, contrary to `src/policy/rules/procedural_unblock.py:34-37`
  (`PolicyAutomata.TwoOfFourDoNotFire`).
- The stuckness metric counts answer demands too, not only procedural requests as `src/policy/metrics.py:20-23` says
  (`Metrics.StuckMeansAnyRequest`).
- The preference for calibration questions under miscalibration (`src/policy/questions/selector.py:59-77`) never decides
  what is asked: such a turn is an answer demand, whose question the attempt rule replaces
  (`TurnDecisions.CalibrationPreferenceIsMoot`).
- A draw ignores the attempt constraint exactly when nothing in its pool may be asked and the pool's first question
  requires an attempt the student did not make (`Questions.AttemptRespectedIff`); the bank's first monitoring question
  does (`Questions.ExplainWithoutAttempt`).
- A session finalized late stays undispatched only until the next deadline sweep, which moves its mark back to the
  deadline and dispatches it (`LifecycleGuarantees.LateSessionIsBackdated`), against `src/api/session.py:364-366`.
- No session ever starts after its activity's deadline, so the sweep's filter on the start time
  (`src/services/deadline_reminders.py:95-97`) excludes nothing (`Lifecycle.NoLateStarters`).
- A turn that outlives its connection can finalize the session after the wrap-up has run. Such a session is still
  dispatched on its own exactly when a sweep has found it or will (`LifecycleGuarantees.StillDispatchedIff`); without a
  deadline it is stranded and the student refused (`LifecycleGuarantees.FinalizedAfterWrapUp`).
- After the sweep, a student who finished in time is missing from the teacher's on-time list exactly when a session opened
  no earlier is the newest and leaves the student out: nobody wrote in it and it is not finalized in time, or it is late
  and an administrator had it evaluated (`SweptCohort.FinisherIsMissingIff`). Two connections opened before the first
  finished are enough (`SweptCohort.FinisherGoesMissing`).
- A connection that drops leaves its turn running exactly when one is in flight (`TurnProtocol.DisconnectLeavesTurnIff`).
- A connection lost without its wrap-up loses the time of the last response after a completed turn, and the grown windows
  after an abandoned one (`PolicySession.LostAfterCompletedIff`, `PolicySession.LostAfterAbandonedIff`).
- The cursor walk loses rows exactly when a page boundary falls between equal time stamps
  (`CursorPaging.WalkCompleteIff`), and only rows that a later one shares its time stamp with (`CursorPaging.WalkBack`).

## Model

| member | source | states |
|---|---|---|
| Sentences.SplitIsScan | src/policy/interceptors/open_endedness_classifier.py:88-99 | the split at space runs after terminators, stripped and with blanks dropped, is one left-to-right scan |
| Sentences.SplitAtBreak | src/policy/interceptors/open_endedness_classifier.py:88-99 | cutting a text at a separator cuts its list of sentences in two |
| Sentences.SplitMerge | src/policy/interceptors/open_endedness_classifier.py:88-99 | any other cut glues the last sentence of one half to the first of the other |
| Sentences.SplitKeepsSolid | src/policy/interceptors/open_endedness_classifier.py:88-99 | the sentences carry exactly the non-space characters of the text, in order |
| Interceptors.OpenIff | src/policy/interceptors/open_endedness_classifier.py:63-85 | a sentence is open exactly when it asks and holds an interrogative stem: the closed forms never hide one |
| Interceptors.CheckOutput | src/policy/engine.py:508-526 | the loop over interceptors threads text and flag, skipping the direct-answer one when the guardrail is relaxed |
| Interceptors.AppendIsOpen | src/policy/interceptors/direct_answer_detector.py:44-61 | appending an open question makes any reply contain an open sentence, wherever the cut falls |
| Interceptors.AppendAfterSentence | src/policy/interceptors/direct_answer_detector.py:60-61 | after a finished sentence the appended text has the reply's sentences followed by the question's |
| Interceptors.AppendInsideSentence | src/policy/interceptors/direct_answer_detector.py:60-61 | after an unfinished one the last and the first are glued into one |
| Interceptors.AppendOpenIff | src/policy/interceptors/direct_answer_detector.py:44-61 | for any reply and question the appended text asks openly exactly when one of them does, or the sentence they form where the reply breaks off |
| Interceptors.AppendKeepsPrefix | src/policy/interceptors/direct_answer_detector.py:44-61 | appending does not change whether a rhetorical reply opens with a direct answer |
| Interceptors.GuardrailOutput | src/policy/engine.py:508-526 | with the guardrail on and an open planned question the result asks openly, and is the reply or wraps it with the question at the end |
| Interceptors.AppendsCountsChecked | src/policy/engine.py:518-526 | the modified flag is raised exactly when some interceptor appended the question |
| Interceptors.AppendedTwiceIff | src/policy/interceptors/rhetorical_question_detector.py:41-67 | for any reply and question: appended twice exactly for a rhetorical reply with a direct-answer opening, or one that even with the question asks nothing open |
| Interceptors.AsksOpenlyIff | src/policy/engine.py:508-526 | for any reply, question and guardrail, when the student reads an open question: from the reply, the appended question, the two glued together, or the question glued to itself |
| Interceptors.CheckedWraps | src/policy/engine.py:508-526 | a changed reply is the right-stripped reply followed by the whole question; an unmodified one is the reply |
| Interceptors.NoStemAsksNothing | src/policy/interceptors/open_endedness_classifier.py:63-85 | no interrogative word in reply or question: the guarded output asks nothing open |
| Interceptors.NoStemAppendsTwice | src/policy/interceptors/rhetorical_question_detector.py:41-67 | and a rhetorical reply then gets the question twice |
| Interceptors.WireTextIff | src/api/session.py:836-840 | for any reply, question and guardrail the client ends up with the checked text exactly when nothing was appended, or the reply's trailing space opens the gap before the question, once or twice appended, empty reply included |
| Interceptors.BlankLosesCharacter | src/api/session.py:836-840 | one trailing blank after a reply that asks nothing makes the client's text differ from the checked one |
| GuardrailTriggers.RhetoricalIff | src/policy/interceptors/rhetorical_question_detector.py:41-67 | for any reply with a question mark the rhetorical interceptor acts exactly when at least eight words precede the first one and nothing asks openly |
| GuardrailTriggers.NoMarkIsNotRhetorical | src/policy/interceptors/rhetorical_question_detector.py:41-45 | without a question mark it never does |
| GuardrailTriggers.DirectOpeningIff | src/policy/interceptors/direct_answer_detector.py:26-61 | for which first words the question is appended to a reply that asks openly, up to case and space |
| GuardrailTriggers.FewWordsAreNoDirectOpening | src/policy/interceptors/direct_answer_detector.py:26-61 | never to one of less than three words |
| GuardrailTriggers.CheckedTextIs | src/policy/engine.py:508-526 | the text that comes back: the reply, the reply with the question once or twice behind a blank line, or the question in place of an empty reply |
| GuardrailTriggers.CaseDoesNotMatter | src/policy/interceptors/open_endedness_classifier.py:63-85 | texts that differ in the case of letters ask alike and have the same words |
| AudioStream.ExtractCompleteSentences | src/api/audio_stream.py:75-91 | the buffer is cut just after its last terminator followed by space or end; sentences of the part before, rest unchanged |
| AudioStream.SplitsInsideIff | src/api/audio_stream.py:72-91 | the chunk-wise condition that a cut falls inside a batch sentence, read off the boundaries |
| AudioStream.RefinesKeepsText | src/api/audio_stream.py:94-132 | a finer list of sentences has the same text |
| AudioStream.StreamStep | src/api/audio_stream.py:107-121 | taking in one more completed piece keeps the spoken list finer than the batch split, and equal when nothing was cut inside |
| AudioStream.AudibleIff | src/api/audio_stream.py:111-121 | one frame for every sentence whose synthesis succeeds, in order, numbered by position, in one voice, and no other |
| AudioStream.Speak | src/api/audio_stream.py:111-121 | one sentence locks the voice, is emitted exactly if synthesis succeeds, and uses up its number either way: the frames are those heard for all sentences so far |
| AudioStream.SpeakAll | src/api/audio_stream.py:111-121 | the completed sentences of one chunk, in order |
| AudioStream.Wrap | src/api/audio_stream.py:94-132 | for every chunking: text passes through; spoken sentences carry the reply's non-space text, refine its batch split, equal it exactly when no cut falls inside; a frame is heard for exactly the sentences whose synthesis succeeds; and whenever a chunk goes out every sentence completed before it has been spoken |
| TurnStream.StripSentinelTail | src/api/session.py:787-800 | for every chunking the forwarded text and the flag are functions of the whole reply, and after every chunk all but the bounded tail has been forwarded |
| TurnStream.CapturedIff | src/api/session.py:789-799 | the flag is raised exactly when some marker is followed by at most 8 characters |
| TurnStream.FilteredCutsOneMarker | src/api/session.py:796-800 | the filter cuts out one marker and right-strips what follows |
| TurnStream.MarkerReachesClientIff | src/api/session.py:787-800 | a closing marker is forwarded exactly when more than 8 blanks follow it |
| TurnStream.ShownTextIff | src/api/session.py:827-864 | for every reply, plan and kind of turn what the student reads: the farewell or the filtered reply on a noticed marker, else what the interceptors returned exactly when they appended nothing or the trailing space opens the gap |
| TurnStream.AudioSession.constructor | src/api/session.py:146-151 | no voice is locked before the first frame |
| TurnStream.AudioSession.Consume | src/api/session.py:802-822 | forwarding stops where the turn does; sent frames are a prefix; the voice is locked by the first frame handed to the connection, even if the turn stops at that send |
| TurnStream.AudioSession.SayExtra | src/api/session.py:764-780 | farewell and correction take the next number and the locked voice, or lock it |
| TurnStream.AudioSession.StreamOut | src/api/session.py:802-822 | one source: the frames heard for its sentences, rising numbers, one voice, the first `stopAfter` events of text and audio, all of them when complete |
| TurnStream.AudioSession.Correct | src/api/session.py:833-864 | the correction is sent and spoken, in the locked voice and with the next number, exactly when an interceptor modified the reply |
| TurnStream.AudioSession.ProcessReply | src/api/session.py:698-865 | every frame of the connection has one voice, numbers rise within the turn; a completed turn sends the specified text, the frames heard for its sentences, then that of the correction or only that of the farewell; the marker flag is right |
| ClosureGate.FinalizesIff | src/api/session.py:918-960 | when a turn finalizes the session: eligible turns exactly on the marker, others on a marker in the tail past the minimum turn |
| ClosureGate.FinalizingTurnShowsFarewell | src/api/session.py:748-780 | an eligible closing turn shows only the farewell; any other keeps the reply |
| PolicyAutomata.ProceduralBlockIff | src/policy/scores.py:114-125 | the score crosses 0.45 exactly when an attempt is in the window and 14p + 6d > 9n |
| PolicyAutomata.ProceduralStuckNeeds | src/policy/scores.py:114-125 | crossing takes an earlier attempt, a procedural request and two requests in all |
| PolicyAutomata.ProceduralStuckOverFourTurns | src/policy/scores.py:114-125 | the exact combinations over four turns |
| PolicyAutomata.TwoOfFourDoNotFire | src/policy/rules/procedural_unblock.py:34-37 | two procedural requests of four turns are not enough |
| PolicyAutomata.HighStruggleNeedsThreeCues | src/policy/scores.py:63-72 | no two of hedging, confusion, slowness and brevity alone reach the struggle that climbs the ladder |
| TurnDecisions.ScoresInSignals | src/policy/scores.py:63-108 | struggle, load, miscalibration and help avoidance in the signals; no clamp of a sum ever bites |
| TurnDecisions.HintAbuseIff | src/policy/scores.py:90-97 | answer demands count from the second among three turns on |
| TurnDecisions.ProceduralBlockInRates | src/policy/scores.py:110-125 | the damped mix of the two rates over at most four turns; without an earlier attempt at most 0.3 |
| PolicyAutomata.RecoveringIff | src/policy/recovery.py:43-74 | when a turn recovers, by the carried state and the signals: not calm for at most three turns, or confused and loaded after two loaded turns |
| TurnDecisions.PhaseMovesIff | src/policy/fsm.py:47-88 | in the turn count and the signals, exactly when a turn leaves its phase: early evaluation, overload and turn limits, never while recovering |
| Questions.FirstFresh | src/policy/questions/selector.py:145-178 | the first unasked question whose attempt constraint is met, or none there is |
| Questions.FirstInFamilies | src/policy/questions/selector.py:161-170 | the first family in order of preference with a fresh question |
| Questions.SelectAttemptQuestion | src/policy/rules/elicit_attempt.py:26-33 | a question of the attempt pool |
| Questions.FirstUnasked | src/policy/rules/elicit_attempt.py:26-33 | the first unasked one while there is one, else the first again |
| Questions.SelectionRepeatsOnlyWhenExhausted | src/policy/questions/selector.py:127-188 | an asked question is drawn only when the whole pool has been asked; otherwise the draw is from the pool |
| Questions.SelectionFollowsPreference | src/policy/questions/selector.py:29-114 | the draw comes from the most preferred family with a fresh question |
| TurnDecisions.PreferencesIff | src/policy/questions/selector.py:29-114 | for every state and scores which family is preferred first and last, and which are listed at all |
| TurnDecisions.FirstChoiceIsAsked | src/policy/questions/selector.py:29-178 | on a turn that is no answer demand, the first choice by phase, struggle and load is asked while the bank holds one to ask |
| TurnDecisions.PreferredIsEarliest | src/policy/questions/selector.py:145-170 | within family and phase the earliest question of the bank that may be asked |
| TurnDecisions.AskedFrom | src/policy/engine.py:346-400 | a demand asks from the attempt pool, a recovering turn from the recovery family, any other from the phase it moves to |
| TurnDecisions.CalibrationPreferenceIsMoot | src/policy/questions/selector.py:59-77 | a turn miscalibrated enough for that preference is an answer demand and asks an attempt question instead |
| TurnDecisions.ContextualizeFills | src/policy/questions/contextualizer.py:23-28 | the topic placeholder is filled with the stripped title or the stock phrase; without one the text stands |
| Questions.AttemptRespectedIff | src/policy/questions/selector.py:145-188 | for every bank, state, forced family and history a draw meets the attempt constraint exactly when the student made an attempt, the pool holds a question to ask, or the fallback requires none |
| Questions.FreshIsDrawn | src/policy/questions/selector.py:145-178 | while the pool holds a question to ask, such a one is drawn |
| Questions.NothingFreshFallsBack | src/policy/questions/selector.py:157-188 | otherwise the forced family's, the state's or the bank's first question comes back |
| Questions.ExplainWithoutAttempt | src/policy/questions/bank.py:161-171 | with the other monitoring questions used up, a student without an attempt is asked to explain the step taken |
| Questions.ExplainWithoutAttemptInstance | src/policy/questions/selector.py:180-188 | one such draw |
| Engine.QuestionPlan.constructor | src/policy/types.py:129-142 | a plan starts guarded, asking, with no directives |
| Engine.PolicyContext.constructor | src/policy/types.py:103-126 | a context starts without scores on the carried rung |
| Engine.ApplyElicitAttempt | src/policy/rules/elicit_attempt.py:36-58 | what the rule rewrites, and only on a demand without an attempt |
| Engine.ApplyNoDirectAnswers | src/policy/rules/no_direct_answers.py:43-57 | what the rule rewrites when a trigger phrase matched |
| Engine.ApplyHintLadder | src/policy/rules/hint_ladder_rule.py:50-66 | one directive for this turn's rung; the last rung relaxes the guardrail |
| Engine.ApplyToneByConfidence | src/policy/rules/tone_by_confidence.py:21-55 | supportive before challenging, else nothing |
| Engine.ApplyProceduralUnblock | src/policy/rules/procedural_unblock.py:64-82 | fires on score and cooldown; discards earlier directives and relaxes the guardrail |
| Engine.Apply | src/policy/engine.py:407-425 | each rule takes the plan from the rules before it to the plan with it |
| Engine.Advance | src/policy/engine.py:252-345 | scores, recovery, the FSM paused while recovering, the ladder under the new recovery state, left in the context |
| Engine.RunRules | src/policy/engine.py:401-431 | the rule loop under the cooldown ends in the plan, marks and tone flag of all five rules |
| Engine.Evaluate | src/policy/engine.py:228-506 | the whole pipeline returns the specified decision and leaves scores and rung in the context |
| TurnDecisions.PlanIff | src/policy/engine.py:402-431 | every field of the plan after all rules, in the signals and the carried values |
| TurnDecisions.AppliedInOrder | src/policy/engine.py:402-431 | which rules a turn reports, in order, in the signals and the carried values |
| Engine.GuardrailRelaxedIff | src/policy/engine.py:402-431 | after all rules the guardrail is off exactly on the last rung or a hand-off; when the hand-off fires, and never on a first turn |
| Engine.DirectivesInOrder | src/policy/engine.py:402-468 | the directives of a turn, in order, the hand-off replacing all earlier ones and closure last |
| Engine.EscalatedIff | src/policy/engine.py:458-468 | the firm closing directive exactly on eligible turns with a done signal now or one of two turns back, the plain one on the other eligible turns |
| Engine.ChallengesOnlyDemands | src/policy/rules/tone_by_confidence.py:26-55 | the challenging branch is a confident answer demand without attempt, so it always meets the attempt rule |
| Engine.DemandUnguardedIff | src/policy/rules/elicit_attempt.py:36-58 | an answer demand without attempt is routed to the attempt pool, and is unguarded exactly on a hand-off or when it stays on the last rung, by the carried state and this turn's signals |
| Engine.PlaceholderReachesStudentIff | src/policy/rules/procedural_unblock.py:59-82 | on a hand-off turn the placeholder is appended to the reply exactly when the reply is rhetorical |
| Engine.GuardedTurnAsksOpenlyIff | src/policy/engine.py:508-526 | decision and output check together, for any planned question: off the last rung and without hand-off, when the student reads an open question, and that the output is the reply or wraps it |
| RecoveryOutput.RecoveryTurnAsksNothingOpen | src/policy/questions/bank.py:376-397 | a guarded recovery turn that plans recover_01 asks nothing open unless the reply does, and asks recover_01 twice after a rhetorical reply |
| RecoveryOutput.RecoveryTurnIsReached | src/policy/recovery.py:43-74 | a run whose third turn is such a turn |
| PolicyRuns.AfterFields | src/api/session.py:867-878 | what a completed turn leaves for the next one, field by field |
| PolicyRuns.CountersAreHistory | src/policy/hint_ladder.py:37-88 | on every run each carried counter is the trailing streak, or the capped turns since the last firing, of the history |
| PolicyRuns.RecoveryInvariant | src/policy/recovery.py:50-74 | recovery lasts at most three decisions |
| PolicyRuns.FiringsAreSpaced | src/policy/cooldown.py:38-50 | two tone shifts, or two hand-offs, are at least three turns apart |
| PolicyRuns.FiringRate | src/policy/engine.py:486-503 | any n consecutive turns hold at most ceil(n / 3) of either |
| SteadyRuns.SteadyIsRun | src/api/session.py:662-672 | the same signals turn after turn are a run of the policy |
| SteadyRuns.ToneRateIsTight | src/policy/cooldown.py:38-50 | on any bank a run whose first n turns hold exactly ceil(n / 3) tone shifts |
| SteadyRuns.HandOffRateIsTight | src/policy/cooldown.py:38-50 | on any bank a run with n consecutive turns that hold exactly ceil(n / 3) hand-offs |
| LadderSafety.OneStep | src/policy/hint_ladder.py:37-88 | exactly when one decision moves one rung up, attempted high struggle outside recovery, or drops to the first rung on a low-struggle pair |
| LadderSafety.BottomOutEntry | src/policy/hint_ladder.py:50-88 | on every run the last rung is entered after four focused decisions, not before the sixth, not while recovering, with attempt and struggle above 0.6 |
| LadderSafety.BottomOutIff | src/policy/hint_ladder.py:50-88 | on every run, exactly when the last rung is entered from the one before it |
| LadderSafety.MovesIff | src/policy/hint_ladder.py:50-88 | on every run, exactly when a turn drops, after two low-struggle turns, and when it climbs below the last rung |
| LadderSafety.OtherMoves | src/policy/hint_ladder.py:50-88 | every other move of a run is one rung up or a drop closing two low-struggle turns |
| LadderSafety.SixthDecisionBottomsOut | src/policy/hint_ladder.py:50-88 | six attempted high-struggle turns do reach the last rung on the sixth decision |
| LadderSafety.SixthDecisionIsTight | src/policy/hint_ladder.py:50-88 | on any bank a run that is on the last rung on its sixth decision |
| ClosureLiveness.PhasesInOrder | src/policy/fsm.py:47-88 | phases follow in order on every run, pause while recovering, and none outlasts its turn limit |
| ClosureLiveness.BudgetShrinks | src/policy/engine.py:448-457 | every turn without closure past the minimum uses up a bounded budget |
| ClosureLiveness.ClosureWithinEight | src/policy/engine.py:448-457 | among any eight consecutive turns past the minimum one offers closure, whatever the signals |
| ClosureLiveness.SevenTurnsWithoutClosure | src/policy/engine.py:448-457 | eight is tight: a run, on any bank, with seven such turns without closure |
| QuestionRuns.RecentIdsAreHistory | src/api/session.py:868-869 | the carried ids are the ids of all completed turns |
| QuestionRuns.NoEarlyRepeat | src/policy/questions/selector.py:145-188 | on every run a question comes back only after everything its turn could draw has been asked |
| QuestionRuns.DrawsAreDistinct | src/policy/rules/elicit_attempt.py:26-33 | two turns ask different questions while the later one's pool is not used up |
| Metrics.MetricsCollector.constructor | src/policy/metrics.py:34-48 | the counters start as the definitions over no decisions |
| Metrics.MetricsCollector.RecordDecision | src/policy/metrics.py:52-92 | streaming one decision keeps every counter equal to its definition over the whole list |
| Metrics.MetricsCollector.TrackStuckness | src/policy/metrics.py:67-84 | the running fields give the longest stuck run, a hand-off closing and counting in it |
| Metrics.MetricsCollector.CountRules | src/policy/metrics.py:57-58 | firing counts are the multiplicities over all decisions |
| Metrics.MetricsCollector.CountHint | src/policy/metrics.py:55 | the histogram counts the turns on each rung |
| Metrics.MetricsCollector.RecordInterceptorCorrection | src/policy/metrics.py:94-97 | a correction counts once |
| Metrics.MetricsCollector.TakeSnapshot | src/policy/metrics.py:101-113 | the stored view: histogram summing to the turns, counts as defined, rates over the turns |
| Metrics.LongestGrows | src/policy/metrics.py:67-84 | one more decision can only lengthen the run at the end |
| Metrics.HistogramSums | src/policy/metrics.py:55 | the rungs partition the turns |
| Metrics.RecoveryTurnsPerEntry | src/policy/metrics.py:86-92 | on engine runs each recovery entry accounts for at most three recovery turns |
| Metrics.UnblocksPerTurns | src/policy/metrics.py:71-79 | on engine runs three times the hand-offs is at most the turns plus two |
| Metrics.StuckMeansAnyRequest | src/policy/metrics.py:68-84 | the stuckness score is positive exactly on any procedural or answer request in view |
| Metrics.FeaturesOnRuns | src/policy/metrics.py:52-92 | on engine runs every counted feature in terms of what happened on the turn |
| Metrics.StuckRunOnRuns | src/policy/metrics.py:67-84 | on engine runs a stuck run is a stretch of turns with a request in view and no hand-off before its last |
| Persistence.RoundTrip | src/policy/persistence.py:90-117 | what is stored is what is read back |
| Persistence.OlderSnapshotReads | src/policy/persistence.py:38-64 | a snapshot without the newer field reads with its default |
| Persistence.NewerSnapshotRefused | src/policy/persistence.py:94-117 | a newer version is refused whatever else is stored; any other goes to validation |
| Persistence.MissingFieldsDefault | src/policy/persistence.py:38-64 | whatever fields are missing, each reads as its default and every other as stored |
| Persistence.CarryReadIff | src/policy/persistence.py:90-117 | the carried values are read exactly when no field that is there is malformed |
| Persistence.DeserializeIff | src/policy/persistence.py:90-117 | a snapshot is taken up exactly when it is not empty, not newer, and no field that is there is malformed |
| PolicySession.ChatSession.constructor | src/api/session.py:323-329 | a new connection starts from what the row holds, or fresh |
| PolicySession.ChatSession.ApplySnapshot | src/policy/persistence.py:121-135 | all covered fields take the snapshot's values |
| PolicySession.ChatSession.SetCarry | src/policy/persistence.py:123-131 | the automata's fields take the given values |
| PolicySession.ChatSession.PersistPolicyState | src/api/session.py:428-443 | the row holds the serialized snapshot of the present state |
| PolicySession.ChatSession.Commit | src/api/session.py:867-878 | the carried values become those of the decision |
| PolicySession.ChatSession.Complete | src/api/session.py:867-916 | commits, stores, and only then notes when the response was finished |
| PolicySession.ChatSession.EvaluatePolicy | src/api/session.py:641-658 | the engine's decision on the context |
| PolicySession.ChatSession.ProcessTurn | src/api/session.py:610-672 | evaluation on the session's own state; windows grow, the rest only when the turn completes; the stored snapshot predates the response time |
| PolicySession.ChatSession.GrowWindows | src/api/session.py:662-668 | each window is cut to its last ten |
| PolicySession.RestoreIsIdentity | src/policy/persistence.py:69-135 | snapshot, store, read, apply is the identity on the policy state |
| PolicySession.UnreadableStartsFresh | src/api/session.py:323-329 | what cannot be read starts the session afresh |
| PolicySession.ReconnectsAreTransparent | src/api/session.py:323-349 | a session cut by any number of reconnects decides exactly what the uncut one decides |
| PolicySession.LostAfterCompletedIff | src/api/session.py:883-916 | what a completed turn stored restores all but the response time, and that too exactly when the times agree |
| PolicySession.LostAfterAbandonedIff | src/api/session.py:428-443 | after an abandoned turn nothing is lost exactly when the stored time is right and every window it grew was already full of the same value |
| PolicySession.RowHoldsState | src/api/session.py:883-916 | along every session the row holds the state up to the response time, unless the last turn was abandoned |
| PolicySession.WindowIsRecentSignals | src/api/session.py:662-663 | the signals window is the last ten of all signals, abandoned turns and reconnects included |
| PolicySession.WindowIsRecentLengths | src/api/session.py:664-665 | the length window is the last ten of all word counts |
| PolicySession.WindowIsRecentLatencies | src/api/session.py:622-668 | the latency window is the last ten of all latencies observed against the last response, abandoned turns and reconnects included |
| PolicySession.ResponseIsLastFinish | src/api/session.py:914-916 | the response time is that of the last completed turn |
| PolicySession.PolicySeesHistory | src/api/session.py:622-658 | in every session what the policy is evaluated on: the completed turns' carried values, the last ten signals of all turns, and signals extracted against the histories |
| PolicySession.ContextsSeeRecentSignals | src/api/session.py:641-657 | in every session each turn is judged against the last ten signals before it, abandoned turns and reconnects included |
| PolicySession.SessionsAreRuns | src/api/session.py:867-883 | the completed turns of any session are a run of the policy |
| TurnProtocol.SessionLoop.constructor | src/api/session.py:445-455 | the loop starts parked in receive, or leaves at once when closing |
| TurnProtocol.SessionLoop.HeadOfLoop | src/api/session.py:446-458 | the guard at the head of the loop drains and leaves, else parks in receive |
| TurnProtocol.SessionLoop.RequestCancel | src/api/session.py:479-516 | cancelling marks the registered turn only |
| TurnProtocol.SessionLoop.Disconnects | src/api/session.py:176-186 | the receive error leaves the loop as it is |
| TurnProtocol.SessionLoop.TurnEnds | src/api/session.py:982-1006 | a turn ends by itself or unwinds after a cancel, and only the latter can be superseded |
| TurnProtocol.SessionLoop.FrameArrives | src/api/session.py:466-547 | one frame, by kind and by whether a turn is in flight |
| TurnProtocol.SessionLoop.MessageArrives | src/api/session.py:495-529 | a message starts a turn, or cancels the running one and waits |
| TurnProtocol.SessionLoop.CreateTurn | src/api/session.py:518-529 | the bundled text is prefix, line break, message; the flags are cleared |
| TurnProtocol.SessionLoop.IdleTimesOut | src/api/session.py:458-464 | cancels and awaits a turn in flight, then leaves |
| TurnProtocol.SessionLoop.Continue | src/api/session.py:485-529 | what the loop does when the awaited turn is over or the frame is sent |
| TurnProtocol.SessionLoop.DrainActiveTurn | src/api/session.py:549-555 | waits for a turn in flight before leaving |
| TurnProtocol.SessionLoop.TurnCallsBack | src/api/session.py:531-542 | the done-callback unregisters only its own turn |
| TurnProtocol.SessionLoop.TurnArmsClose | src/api/session.py:957-960 | the closing turn arms the loop guard |
| TurnProtocol.AtMostOneTurn | src/api/session.py:445-547 | in every interleaving at most one turn is not over, and it is the registered one with its text |
| TurnProtocol.RunningTurnText | src/api/session.py:510-529 | a running turn's text is the newline-join, in order, of the messages accepted since the last turn that ended without a message interrupt |
| TurnProtocol.MessagesAreConserved | src/api/session.py:495-529 | every accepted message ends up in exactly one turn that was not superseded, in order |
| TurnProtocol.LateCallbackSpares | src/api/session.py:531-542 | the callback of an old turn, however late, changes nothing of a newer one |
| TurnProtocol.SkipsSavingIff | src/api/session.py:511-516 | a cancelled turn sees the interrupt flag exactly when a message superseded it |
| TurnProtocol.NoTurnAfterClose | src/api/session.py:447-476 | once the loop guard is armed no turn is ever started |
| TurnProtocol.BreakLeavesNoTurn | src/api/session.py:447-476 | leaving by break leaves no turn running |
| TurnProtocol.DisconnectLeavesTurnIff | src/api/session.py:176-186 | in every reachable state parked in receive, a drop leaves a turn that is not over exactly when one is in flight, and it is that one, still running |
| TurnProtocol.DisconnectLeavesTurn | src/api/session.py:176-186 | one message and a drop are enough |
| TurnProtocol.WaitsEnd | src/api/session.py:479-555 | the loop never waits for a turn that cannot end |
| TurnOutcomes.CancelFrameCancels | src/api/session.py:479-487 | in every reachable state a cancel frame cancels and awaits the turn in flight and is answered; the next message starts a turn of its own |
| TurnOutcomes.CancelFrameAlone | src/api/session.py:488-493 | without a turn in flight it changes nothing |
| TurnOutcomes.TimeoutLeaves | src/api/session.py:458-464 | the idle timeout cancels and awaits the turn in flight and leaves with every turn over |
| TurnOutcomes.TimeoutAlone | src/api/session.py:458-464 | without one it just leaves |
| TurnOutcomes.MessageStartsTurn | src/api/session.py:518-529 | a message without a turn in flight starts one at once with its stripped text |
| TurnOutcomes.MessageInterrupts | src/api/session.py:505-529 | with one in flight it is cancelled, awaited and replaced by one turn of both texts |
| TurnOutcomes.OtherFramesChangeNothing | src/api/session.py:502-547 | a blank message or unknown frame is answered with an error and changes nothing |
| TurnOutcomes.LateFrameIsIgnored | src/api/session.py:466-476 | a frame that races the closing turn is ignored; the loop waits for that turn and leaves |
| TurnOutcomes.AcceptedAreOffered | src/api/session.py:495-529 | in every interleaving exactly the non-blank messages that arrive in receive, not closing, are accepted, in order |
| TurnOutcomes.LoopStaysOpen | src/api/session.py:445-547 | nothing but the closing turn, the idle timeout and a dropped client ends the loop |
| TurnOutcomes.ClosesIff | src/api/session.py:957-960 | the loop guard is armed exactly when some running turn armed it |
| TurnOutcomes.NeverParksClosing | src/api/session.py:447-456 | once armed the loop never goes back to receive |
| TurnOutcomes.RegisteredUntilCallback | src/api/session.py:531-542 | the newest turn is registered from its start to its callback and no longer |
| Backend.Tables.constructor | src/core/models.py:195-211 | no session, queue or history to begin with |
| Backend.Tables.StoreUserMessage | src/adapters/clients/chat_history.py:241-260 | the session counts as engaged |
| Backend.Tables.PersistPolicyState | src/api/session.py:428-443 | the session can be resumed |
| Backend.Tables.UpdateStatus | src/api/routers/activities.py:417-445 | status toggles are always allowed |
| Backend.Tables.SetUpSession | src/api/session.py:205-303 | refuses exactly a finalized student, a past deadline or a missing activity; else resumes a most recent resumable session exactly if there is one, and creates a fresh one otherwise |
| Backend.Tables.FinalizeBySentinel | src/api/session.py:918-928 | the mark is set once |
| Backend.Tables.WrapUpSession | src/api/session.py:335-426 | snapshot, then dispatch exactly a finalized session neither late nor dispatched, queued exactly if the flag allows |
| Backend.Tables.ScanDeadlines | src/services/deadline_reminders.py:99-121 | the rows a sweep may act on, with the deadline it saw |
| Backend.Tables.SweepDeadlines | src/services/deadline_reminders.py:99-173 | the loop over the scanned rows finalizes exactly the engaged sessions started by a deadline now past, stamps them with it, leaves all others, and nothing is due afterwards |
| Backend.Tables.ForceFinalizeSession | src/services/deadline_reminders.py:143-173 | acts only on a row still in progress |
| Backend.Tables.WorkerTakesNext | src/services/metrics_evaluator.py:58-62 | first come first served |
| Backend.Tables.WorkerFinishes | src/services/metrics_evaluator.py:70-109 | the status written after the attempts; a deleted or message-less row is left alone |
| Backend.Tables.ReEvaluateSession | src/api/routers/admin.py:213-239 | allowed exactly for finalized sessions |
| Backend.Tables.UpdateDeadline | src/api/routers/activities.py:417-445 | drafts only, future or none |
| Backend.Tables.ResetActivity | src/api/routers/activities.py:670-706 | new deadline, markers cleared, sessions of the activity or of one student gone |
| Backend.Tables.ReopenActivity | src/api/routers/activities.py:670-706 | the reset's update of the activity row |
| Backend.Tables.DeleteSessions | src/api/routers/activities.py:670-706 | the sessions of the activity, or of one student in it, are gone and no others |
| Backend.Tables.ScanReminders | src/services/deadline_reminders.py:179-198 | published, unmarked activities due within the half hour |
| Backend.Tables.SendReminders | src/services/deadline_reminders.py:213-274 | mails exactly when the marker was not set, to exactly the enrolled students without a finalized session |
| Backend.Tables.Recipients | src/services/deadline_reminders.py:213-250 | the loop over the enrolled students picks those without a finalized session, in order |
| Backend.Tables.ScanSummaries | src/services/deadline_reminders.py:309-322 | unmarked activities past their deadline |
| Backend.Tables.SendSummary | src/services/deadline_reminders.py:333-440 | mails exactly when the marker was not set and a deadline is |
| Lifecycle.StatusMeansFinalized | src/api/session.py:355-379 | in every interleaving, out of IN_PROGRESS implies finalized, and not in the future |
| Lifecycle.DispatchedOnceInTime | src/services/deadline_reminders.py:143-173 | dispatched at most once, and in time whatever happens to the deadline later |
| Lifecycle.EvaluationsAccountedFor | src/services/metrics_evaluator.py:58-99 | evaluations are at most one plus the administrator's requests; every request is queued, in hand or worked off |
| Lifecycle.NeverBackInProgress | src/api/session.py:270-273 | a session never returns to IN_PROGRESS, and its mark is frozen from then on |
| Lifecycle.NoLateStarters | src/services/deadline_reminders.py:113-117 | no session ever counts as started after its deadline, so the sweep's filter on the start excludes nothing |
| RowWrites.OpeningIff | src/api/session.py:205-303 | in every reachable state what an opening does: nothing while refused or a resumable session is found, else it adds exactly one fresh row |
| RowWrites.FoundIsResumed | src/api/session.py:255-275 | a session that can be resumed is: no row is added and none changes |
| RowWrites.ComesBackToIt | src/api/session.py:335-345 | whoever leaves an unfinished session, by a wrap-up or after a stored turn, comes back to it |
| RowWrites.WhoWritesWhat | src/api/session.py:355-379 | field by field the only events that write to a session row, and what they write |
| RowWrites.WhoQueues | src/services/metrics_evaluator.py:58-62 | exactly when and where the evaluation queue grows and shrinks |
| RowWrites.FirstComeFirstServed | src/services/metrics_evaluator.py:58-62 | in every interleaving evaluations run in the order they were asked for |
| RowWrites.VerdictIsEarned | src/services/metrics_evaluator.py:70-109 | in every interleaving a verdict is the worker's, and an evaluated session has something to evaluate |
| RowWrites.EvaluationOutcomeIff | src/services/metrics_evaluator.py:64-109 | what becomes of the session at the head of the queue: evaluated exactly on success with something said, failed exactly on failure or as it was |
| RowWrites.WhoWritesActivities | src/api/routers/activities.py:417-445 | field by field the only events that write to an activity, and what they write |
| RowWrites.ReminderGoesOutIff | src/services/deadline_reminders.py:179-198 | scan and send together remind exactly a published, unreminded activity due within half an hour |
| RowWrites.SummaryGoesOutIff | src/services/deadline_reminders.py:309-322 | and summarise exactly one past its deadline and not summarised |
| LifecycleGuarantees.NoSessionAfterFinalization | src/api/session.py:207-235 | after a finalization no session is created for that student and activity until a reset covering the student |
| LifecycleGuarantees.MailGoesOutOnce | src/services/deadline_reminders.py:213-274 | between two resets at most one reminder batch and one summary go out |
| LifecycleGuarantees.SweepDispatchesIff | src/services/deadline_reminders.py:99-173 | a sweep dispatches exactly the engaged sessions started by a deadline now past |
| LifecycleGuarantees.LateSessionIsBackdated | src/services/deadline_reminders.py:151-155 | a late session its own wrap-up skips is moved back to the deadline and dispatched by the sweep |
| LifecycleGuarantees.StillDispatchedIff | src/api/session.py:355-379 | in every reachable state, when a session in progress still leaves it: by its wrap-up exactly when finalized in time; without connection, administrator or teacher exactly when a sweep has found it or will |
| LifecycleGuarantees.FinalizedAfterWrapUp | src/api/session.py:176-186 | a turn that outlives its connection and finalizes an activity without deadline strands the session and shuts the student out |
| Cohort.LatestByStudent | src/services/deadline_reminders.py:378-394 | the map holds each student's first row |
| Cohort.FirstRow | src/services/deadline_reminders.py:391-394 | none exactly when the student has no row |
| Cohort.FirstIsMostRecent | src/services/deadline_reminders.py:375-394 | in the query's order that is the most recent session |
| Cohort.SplitCohort | src/services/deadline_reminders.py:396-417 | the two lists, the status labels and the ready flag |
| Cohort.SplitsCohort | src/services/deadline_reminders.py:396-417 | every enrolled student is in exactly one part, for the right reason |
| Cohort.SplitsInOrder | src/services/deadline_reminders.py:396-417 | both lists and what is shown for them keep the order of enrolment |
| Cohort.ShownFor | src/services/deadline_reminders.py:396-417 | what is shown for one student |
| SweptCohort.FirstRowIsNewest | src/services/deadline_reminders.py:391-394 | the summary's row of a student is the newest session of the tables |
| SweptCohort.SweptOnTimeIff | src/services/deadline_reminders.py:69-76 | in every reachable state the sweep has left, a student is on time exactly when the newest session is there and is not one nobody wrote in and unfinished in time, nor a late one an administrator had evaluated |
| SweptCohort.FinisherIsMissingIff | src/services/deadline_reminders.py:378-417 | a student who finished in time is missing exactly when the newest session, opened no earlier, is one of those |
| SweptCohort.FinisherGoesMissing | src/services/deadline_reminders.py:391-417 | a reachable such state: two connections opened before the first session was finalized |
| TurnCache.KeyDetermines | src/adapters/llm/gemini.py:189-196 | the key text determines model and prefix when model names are single lines |
| TurnCache.CacheIsBounded | src/adapters/llm/gemini.py:239-253 | never more than sixteen entries, one per key, in every interleaving |
| TurnCache.AnswersMatchRequests | src/adapters/llm/gemini.py:198-260 | every name handed out was created for exactly that model and prefix |
| TurnCache.HitIsUnexpired | src/adapters/llm/gemini.py:207-217 | both lookups answer only with an entry that has not expired |
| TurnCache.CreationIsGuarded | src/adapters/llm/gemini.py:213-218 | a creation starts only under the free lock and with no live entry |
| TurnCache.CreatedEntrySurvivesTrim | src/adapters/llm/gemini.py:239-253 | the entry just created is what the next caller hits |
| CacheRuns.HitIff | src/adapters/llm/gemini.py:207-211 | in every trace a call hits exactly when an entry of its key has not expired |
| CacheRuns.HitIsYoung | src/adapters/llm/gemini.py:207-217 | a hit was created for its key less than the life time minus the margin before |
| CacheRuns.EntryAnswersFor | src/adapters/llm/gemini.py:239-246 | until something else is created or its key invalidated, an entry answers for exactly that long |
| CacheRuns.EvictsOldest | src/adapters/llm/gemini.py:247-253 | a creation drops another key's entry only from a full cache, only one, and only one that expires first |
| CacheRuns.InvalidatedMisses | src/adapters/llm/gemini.py:261-268 | invalidating takes exactly that key's entry away |
| CacheRuns.CallersAreConserved | src/adapters/llm/gemini.py:198-260 | in every trace every call is answered once, waits for the lock or holds it |
| CacheRuns.CallersMoveOn | src/adapters/llm/gemini.py:213-237 | a creation's end frees the lock; a waiting call that finds it free is answered or creates |
| TurnCache.Adapter.constructor | src/adapters/llm/gemini.py:94 | the cache starts empty |
| TurnCache.Adapter.LookUp | src/adapters/llm/gemini.py:207-211 | a hit is the unexpired entry of the key |
| TurnCache.Adapter.OldestIndex | src/adapters/llm/gemini.py:249-252 | the first entry with the least expiry |
| TurnCache.Adapter.StoreCreated | src/adapters/llm/gemini.py:239-253 | insert or replace, then drop the oldest if there are too many |
| TurnCache.Adapter.Invalidate | src/adapters/llm/gemini.py:261-268 | exactly that key goes |
| CursorPaging.HistoryAscends | src/adapters/clients/chat_history.py:77-96 | the query's sort: exactly the session's rows of the user, in order of creation |
| CursorPaging.PageIsSlice | src/adapters/clients/chat_history.py:69-107 | on any table a page is the stretch of the sorted history, of at most the limit and all there is below it, ending with the newest row older than the cursor |
| CursorPaging.WalkedHasNoDuplicates | src/adapters/clients/chat_history.py:69-107 | the walk repeats and invents nothing, ties or not |
| CursorPaging.WalkCompleteIff | src/adapters/clients/chat_history.py:88-93 | the walk rebuilds the history exactly when no page boundary splits equal time stamps |
| CursorPaging.DistinctStampsCutClean | src/adapters/clients/chat_history.py:88-93 | with distinct time stamps and any limit it always does |
| CursorPaging.WalkedKeeps | src/adapters/clients/chat_history.py:88-93 | a row is missed only if a later one has its time stamp |
| CursorPaging.WalkedAscends | src/adapters/clients/chat_history.py:88-96 | what the walk collects is in order |
| CursorPaging.WalkBack | src/adapters/clients/chat_history.py:69-107 | the client's loop terminates, in order and without repeats; it rebuilds the history exactly when no page boundary splits equal time stamps, and always has the last row of each time stamp |

## Left out

- Signal extraction and trigger phrases: signals are arbitrary values in their declared ranges, matching a trigger phrase is a boolean of the turn.
- Floating point: scores are exact reals with the source's literal thresholds.
- Letters outside the Latin alphabets as word characters, and the few non-Latin characters whose case folding meets an ASCII letter.
- The language model, speech, retrieval, mail, storage and database calls: outcomes that may fail, given as parameters; language detection is a parameter of the voice lock.
- A turn whose policy evaluation raises and that streams without a plan: `TurnStream` covers its frames, `PolicySession` does not.
- The greeting turn, which runs before the loop and is not a background turn.
- Cancelled turns stop at their current await; cancelling the handler itself, as on server shutdown, is not modelled.
- Row-level persistence of chat messages under cancellation.
- Processes that restart and lose the evaluation queue, and creation or deletion of activities.
- Validation of an edited deadline and its commit are one step.
- Stored numbers written as strings, and negative counters, in a snapshot: read here as malformed.
- Collisions of the digest that keys the turn cache: the key is the digested text itself.
- The evaluation context cache, which has a single entry, and the retry schedule of the evaluator.
- Directive wording, debug traces, reason strings and the rubric fields of a stored evaluation.
- Metrics of a session that reconnects: the collector starts anew with each connection and is not part of the snapshot.
- CursorPaging.PageIsSlice: rows with equal time stamps are taken to come back in one fixed order on every query.
- The course tables: the enrolled students of a reminder or a summary are an input list.
