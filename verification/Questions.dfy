/** Question selection (questions/selector.py, rules/elicit_attempt.py) over an arbitrary bank. */
module Questions {
  import opened Text
  import opened PolicyTypes

  datatype Family =
    | GOAL_CLARIFICATION | STRATEGY_REVISION | ATTEMPT_ELICITATION
    | SELF_EXPLANATION | CALIBRATION | DISCREPANCY_DETECTION | MONITORING_CHECK
    | REATTRIBUTION | TRANSFER
    | RECOVERY_STABILIZE

  datatype Question = Question(
    id: string,
    family: Family,
    state: FsmState,
    variants: seq<string>,
    tone: Tone,
    requiresAttempt: bool)

  /** What the source's constant bank guarantees: something to ask, and an attempt pool. */
  predicate IsBank(bank: seq<Question>) {
    && bank != []
    && (forall i | 0 <= i < |bank| :: bank[i].variants != [])
    && ByFamily(bank, ATTEMPT_ELICITATION) != []
  }

  function ByState(bank: seq<Question>, state: FsmState): (r: seq<Question>)
    ensures forall q :: q in r <==> q in bank && q.state == state
  {
    if bank == [] then []
    else if bank[0].state == state then [bank[0]] + ByState(bank[1..], state)
    else ByState(bank[1..], state)
  }

  function ByFamily(bank: seq<Question>, family: Family): (r: seq<Question>)
    ensures forall q :: q in r <==> q in bank && q.family == family
  {
    if bank == [] then []
    else if bank[0].family == family then [bank[0]] + ByFamily(bank[1..], family)
    else ByFamily(bank[1..], family)
  }

  function FamilyPreference(state: FsmState, scores: Scores): seq<Family> {
    if scores.affectLoad > 0.6 then
      match state
      case PLANNING => [GOAL_CLARIFICATION, ATTEMPT_ELICITATION, STRATEGY_REVISION]
      case MONITORING => [MONITORING_CHECK, SELF_EXPLANATION]
      case EVALUATION => [SELF_EXPLANATION, REATTRIBUTION]
    else if scores.miscalibration > 0.5 then
      match state
      case MONITORING => [CALIBRATION, DISCREPANCY_DETECTION, SELF_EXPLANATION]
      case EVALUATION => [CALIBRATION, REATTRIBUTION]
      case PLANNING => [STRATEGY_REVISION, GOAL_CLARIFICATION]
    else if scores.struggle > 0.6 then
      match state
      case MONITORING => [SELF_EXPLANATION, STRATEGY_REVISION, DISCREPANCY_DETECTION]
      case PLANNING => [STRATEGY_REVISION, GOAL_CLARIFICATION]
      case EVALUATION => [REATTRIBUTION, SELF_EXPLANATION]
    else
      match state
      case PLANNING => [GOAL_CLARIFICATION, STRATEGY_REVISION]
      case MONITORING => [MONITORING_CHECK, SELF_EXPLANATION, CALIBRATION]
      case EVALUATION => [SELF_EXPLANATION, REATTRIBUTION, TRANSFER]
  }

  predicate MeetsAttempt(q: Question, signals: UserSignals) {
    !q.requiresAttempt || signals.attemptPresent
  }

  predicate Fresh(q: Question, recent: seq<string>, signals: UserSignals) {
    q.id !in recent && MeetsAttempt(q, signals)
  }

  /** First not yet asked question whose attempt constraint is met. */
  function FirstFresh(pool: seq<Question>, recent: seq<string>, signals: UserSignals): (r: Option<Question>)
    ensures r.Some? ==> exists k | 0 <= k < |pool| ::
              pool[k] == r.value && Fresh(r.value, recent, signals) && forall j | 0 <= j < k :: !Fresh(pool[j], recent, signals)
    ensures r.None? ==> forall q | q in pool :: !Fresh(q, recent, signals)
  {
    if pool == [] then None
    else if Fresh(pool[0], recent, signals) then Some(pool[0])
    else FirstFresh(pool[1..], recent, signals)
  }

  predicate NoneFresh(pool: seq<Question>, family: Family, recent: seq<string>, signals: UserSignals) {
    forall q | q in pool && q.family == family :: !Fresh(q, recent, signals)
  }

  /** The most preferred family that still has a question to ask. */
  function FirstInFamilies(pool: seq<Question>, families: seq<Family>, recent: seq<string>, signals: UserSignals)
    : (r: Option<Question>)
    ensures r.Some? ==> r.value in pool && Fresh(r.value, recent, signals)
    ensures r.Some? ==> exists i | 0 <= i < |families| ::
              r.value.family == families[i] && forall j | 0 <= j < i :: NoneFresh(pool, families[j], recent, signals)
    ensures r.None? ==> forall i | 0 <= i < |families| :: NoneFresh(pool, families[i], recent, signals)
  {
    if families == [] then None
    else
      var hit := FirstFresh(ByFamily(pool, families[0]), recent, signals);
      if hit.Some? then hit else FirstInFamilies(pool, families[1..], recent, signals)
  }

  function SelectInState(bank: seq<Question>, state: FsmState, scores: Scores, recent: seq<string>,
                         signals: UserSignals): (r: Question)
    requires bank != []
    ensures r in bank
  {
    var pool := ByState(bank, state);
    var preferred := FirstInFamilies(pool, FamilyPreference(state, scores), recent, signals);
    if preferred.Some? then preferred.value
    else
      var any := FirstFresh(pool, recent, signals);
      if any.Some? then any.value
      else if pool == [] then bank[0]
      else pool[0]
  }

  /** `force` bypasses the preferences and the state filter; an empty forced family falls through. */
  function SelectQuestion(bank: seq<Question>, state: FsmState, scores: Scores, recent: seq<string>,
                          signals: UserSignals, force: Option<Family>): (r: Question)
    requires bank != []
    ensures r in bank
  {
    if force.Some? && ByFamily(bank, force.value) != [] then
      var pool := ByFamily(bank, force.value);
      var hit := FirstFresh(pool, recent, signals);
      if hit.Some? then hit.value else pool[0]
    else SelectInState(bank, state, scores, recent, signals)
  }

  /** First attempt question not yet asked, else the first one again. */
  function SelectAttemptQuestion(bank: seq<Question>, recent: seq<string>): (r: Question)
    requires IsBank(bank)
    ensures r in ByFamily(bank, ATTEMPT_ELICITATION)
  {
    FirstUnasked(ByFamily(bank, ATTEMPT_ELICITATION), ByFamily(bank, ATTEMPT_ELICITATION)[0], recent)
  }

  function FirstUnasked(pool: seq<Question>, fallback: Question, recent: seq<string>): (r: Question)
    ensures r in pool || r == fallback
    ensures (exists q | q in pool :: q.id !in recent) ==>
              exists k | 0 <= k < |pool| :: pool[k] == r && r.id !in recent && forall j | 0 <= j < k :: pool[j].id in recent
    ensures (forall q | q in pool :: q.id in recent) ==> r == fallback
  {
    if pool == [] then fallback
    else if pool[0].id !in recent then pool[0]
    else FirstUnasked(pool[1..], fallback, recent)
  }

  /** The questions a selection may draw from. */
  predicate InPool(bank: seq<Question>, state: FsmState, signals: UserSignals, force: Option<Family>, q: Question) {
    && q in bank && MeetsAttempt(q, signals)
    && if force.Some? && ByFamily(bank, force.value) != [] then q.family == force.value else q.state == state
  }

  lemma InStateRepeatsOnlyWhenExhausted(bank: seq<Question>, state: FsmState, scores: Scores, recent: seq<string>,
                                        signals: UserSignals, q: Question)
    requires bank != [] && q in bank && q.state == state && Fresh(q, recent, signals)
    ensures SelectInState(bank, state, scores, recent, signals).state == state
    ensures Fresh(SelectInState(bank, state, scores, recent, signals), recent, signals)
  {
    hide Fresh, FamilyPreference, FirstInFamilies, FirstFresh, ByState;
    assert q in ByState(bank, state);
  }

  /** A question asked before is drawn only when the whole pool has been asked; otherwise the draw is from the pool. */
  lemma SelectionRepeatsOnlyWhenExhausted(bank: seq<Question>, state: FsmState, scores: Scores, recent: seq<string>,
                                          signals: UserSignals, force: Option<Family>)
    requires bank != []
    ensures var r := SelectQuestion(bank, state, scores, recent, signals, force);
            (exists q :: InPool(bank, state, signals, force, q) && q.id !in recent) ==>
            InPool(bank, state, signals, force, r) && r.id !in recent
  {
    hide SelectInState, FirstFresh, ByFamily;
    if q :| InPool(bank, state, signals, force, q) && q.id !in recent {
      if force.Some? && ByFamily(bank, force.value) != [] {
        assert q in ByFamily(bank, force.value) && Fresh(q, recent, signals);
      } else {
        InStateRepeatsOnlyWhenExhausted(bank, state, scores, recent, signals, q);
      }
    }
  }

  /** The questions a selection looks through, without regard to the attempt constraint. */
  function DrawPool(bank: seq<Question>, state: FsmState, force: Option<Family>): seq<Question> {
    if force.Some? && ByFamily(bank, force.value) != [] then ByFamily(bank, force.value) else ByState(bank, state)
  }

  /** What comes back when the pool holds nothing to ask. */
  function Fallback(bank: seq<Question>, state: FsmState, force: Option<Family>): Question
    requires bank != []
  {
    var pool := DrawPool(bank, state, force);
    if pool == [] then bank[0] else pool[0]
  }

  predicate HoldsFresh(pool: seq<Question>, recent: seq<string>, signals: UserSignals) {
    exists q | q in pool :: Fresh(q, recent, signals)
  }

  /** For every bank, state, forced family and history, when a draw respects the attempt constraint: the student made an
      attempt, or the pool still holds a question to ask, or the fallback happens to require none. */
  lemma AttemptRespectedIff(bank: seq<Question>, state: FsmState, scores: Scores, recent: seq<string>,
                            signals: UserSignals, force: Option<Family>)
    requires bank != []
    ensures MeetsAttempt(SelectQuestion(bank, state, scores, recent, signals, force), signals) <==>
            || signals.attemptPresent
            || HoldsFresh(DrawPool(bank, state, force), recent, signals)
            || !Fallback(bank, state, force).requiresAttempt
  {
    hide FamilyPreference, SelectInState, ByFamily, ByState;
    if HoldsFresh(DrawPool(bank, state, force), recent, signals) {
      FreshIsDrawn(bank, state, scores, recent, signals, force);
    } else {
      NothingFreshFallsBack(bank, state, scores, recent, signals, force);
    }
  }

  lemma FreshIsDrawn(bank: seq<Question>, state: FsmState, scores: Scores, recent: seq<string>,
                     signals: UserSignals, force: Option<Family>)
    requires bank != [] && HoldsFresh(DrawPool(bank, state, force), recent, signals)
    ensures Fresh(SelectQuestion(bank, state, scores, recent, signals, force), recent, signals)
  {
    hide SelectInState, Fresh, ByFamily;
    var q :| q in DrawPool(bank, state, force) && Fresh(q, recent, signals);
    if !(force.Some? && ByFamily(bank, force.value) != []) {
      InStateRepeatsOnlyWhenExhausted(bank, state, scores, recent, signals, q);
    }
  }

  lemma NothingFreshFallsBack(bank: seq<Question>, state: FsmState, scores: Scores, recent: seq<string>,
                              signals: UserSignals, force: Option<Family>)
    requires bank != [] && !HoldsFresh(DrawPool(bank, state, force), recent, signals)
    ensures SelectQuestion(bank, state, scores, recent, signals, force) == Fallback(bank, state, force)
  {
    hide FamilyPreference, Fresh, ByFamily;
  }

  const ELICIT_01 := Question("elicit_01", ATTEMPT_ELICITATION, PLANNING, ["Antes de avanzar, \U{BF}qu\U{E9} probaste hasta ahora?"],
                              Supportive, false)
  const EXPLAIN_01 := Question("explain_01", SELF_EXPLANATION, MONITORING,
                               ["\U{BF}Por qu\U{E9} cre\U{E9}s que ese paso tiene sentido?"], Neutral, true)

  /** Any bank whose first monitoring question is explain_01 asks for an explanation of a step the student never took,
      once its other monitoring questions are used up. */
  lemma ExplainWithoutAttempt(bank: seq<Question>, scores: Scores, recent: seq<string>, signals: UserSignals)
    requires ByState(bank, MONITORING) != [] && ByState(bank, MONITORING)[0] == EXPLAIN_01
    requires !signals.attemptPresent
    requires forall q | q in bank && q.state == MONITORING && !q.requiresAttempt :: q.id in recent
    ensures bank != []
    ensures SelectQuestion(bank, MONITORING, scores, recent, signals, None) == EXPLAIN_01
    ensures !MeetsAttempt(SelectQuestion(bank, MONITORING, scores, recent, signals, None), signals)
  {
    hide FamilyPreference, SelectQuestion;
    NothingFreshFallsBack(bank, MONITORING, scores, recent, signals, None);
  }

  /** One such draw. */
  lemma ExplainWithoutAttemptInstance(scores: Scores)
    ensures var silent: UserSignals := NEUTRAL_SIGNALS.(attemptPresent := false);
            var bank := [ELICIT_01, EXPLAIN_01];
            && IsBank(bank) && SelectQuestion(bank, MONITORING, scores, [], silent, None) == EXPLAIN_01
            && !MeetsAttempt(EXPLAIN_01, silent)
  {
    hide FamilyPreference, SelectQuestion;
    var bank := [ELICIT_01, EXPLAIN_01];
    assert bank[1..] == [EXPLAIN_01] && [EXPLAIN_01][1..] == [];
    assert ByState(bank, MONITORING) == [EXPLAIN_01] + ByState([], MONITORING);
    assert ByFamily(bank, ATTEMPT_ELICITATION) == [ELICIT_01] + ByFamily([EXPLAIN_01], ATTEMPT_ELICITATION);
    ExplainWithoutAttempt(bank, scores, [], NEUTRAL_SIGNALS.(attemptPresent := false));
  }

  /** Outside a forced family the draw comes from the most preferred family with a fresh question in this state. */
  lemma SelectionFollowsPreference(bank: seq<Question>, state: FsmState, scores: Scores, recent: seq<string>,
                                   signals: UserSignals, i: nat)
    requires bank != [] && i < |FamilyPreference(state, scores)|
    requires !NoneFresh(ByState(bank, state), FamilyPreference(state, scores)[i], recent, signals)
    requires forall j | 0 <= j < i :: NoneFresh(ByState(bank, state), FamilyPreference(state, scores)[j], recent, signals)
    ensures var r := SelectQuestion(bank, state, scores, recent, signals, None);
            r.family == FamilyPreference(state, scores)[i] && r.state == state && Fresh(r, recent, signals)
  {
    var families := FamilyPreference(state, scores);
    var pool := ByState(bank, state);
    var r := FirstInFamilies(pool, families, recent, signals);
    var k :| 0 <= k < |families| && r.value.family == families[k]
             && forall j | 0 <= j < k :: NoneFresh(pool, families[j], recent, signals);
    assert !NoneFresh(pool, families[k], recent, signals);
  }
}
