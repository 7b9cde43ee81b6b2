/** Values exchanged by the policy components (types.py). */
module PolicyTypes {
  import opened Text

  datatype FsmState = PLANNING | MONITORING | EVALUATION

  datatype Rung = PROCESS_FEEDBACK | STRATEGIC_HINT | FOCUSED_HINT | BOTTOM_OUT

  datatype Recovery = NORMAL | STABILIZE

  datatype Tone = Supportive | Neutral | Challenging

  datatype RawSignals = Signals(
    hedging: real,
    confusion: real,
    attemptPresent: bool,
    directAnswerRequest: bool,
    proceduralRequest: bool,
    doneSignal: bool,
    latencyZ: real,
    lengthZ: real,
    revisions: int)

  /** The field bounds the data model enforces. */
  predicate InRange(s: RawSignals) {
    0.0 <= s.hedging <= 1.0 && 0.0 <= s.confusion <= 1.0 && s.revisions >= 0
  }

  const NEUTRAL_SIGNALS := Signals(0.0, 0.0, true, false, false, false, 0.0, 0.0, 0)

  type UserSignals = s: RawSignals | InRange(s) witness NEUTRAL_SIGNALS

  datatype Scores = Scores(
    struggle: real,
    miscalibration: real,
    hintAbuse: real,
    helpAvoidance: real,
    affectLoad: real,
    proceduralBlock: real)

  /** Title of the activity a session is bound to. */
  datatype ActivityRef = ActivityRef(title: string)

  /** The policy values one committed turn hands to the next. */
  datatype Carry = Carry(
    fsm: FsmState,
    recentIds: seq<string>,
    hint: Rung,
    turnsInHint: nat,
    lowStreak: nat,
    recovery: Recovery,
    turnsInRecovery: nat,
    sinceMeta: nat,
    sinceProc: nat)

  const FRESH := Carry(PLANNING, [], PROCESS_FEEDBACK, 0, 0, NORMAL, 0, 99, 99)

  /** One evaluated turn: the carried values and what the student just did. `asksForAnswer` is the outcome
      of matching the message against the trigger phrases. */
  datatype Context = Context(
    carry: Carry,
    turnCount: nat,
    asksForAnswer: bool,
    signals: UserSignals,
    window: seq<UserSignals>,
    activity: Option<ActivityRef>)

  datatype Directive =
    | ElicitAttempt
    | NoDirectAnswer
    | ForRung(rung: Rung)
    | SupportiveTone
    | ChallengingTone
    | ScaffoldingPivot
    | Closure
    | ClosureEscalated

  datatype Applied =
    | ElicitAttemptFired
    | NoDirectAnswersFired
    | HintLadderFired(rung: Rung)
    | ToneByConfidenceFired
    | ProceduralUnblockFired

  datatype Plan = Plan(
    questionId: string,
    questionText: string,
    tone: Tone,
    forbidDirectAnswer: bool,
    mustAskQuestion: bool,
    mustElicitAttempt: bool,
    directives: seq<Directive>)

  datatype Decision = Decision(
    nextState: FsmState,
    plan: Plan,
    applied: seq<Applied>,
    scores: Scores,
    nextHint: Rung,
    nextTurnsInHint: nat,
    nextLowStreak: nat,
    nextRecovery: Recovery,
    nextTurnsInRecovery: nat,
    nextSinceMeta: nat,
    nextSinceProc: nat,
    closureEligible: bool)
}
