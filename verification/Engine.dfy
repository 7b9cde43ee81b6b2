/** One evaluated turn: the policy pipeline and the rules that rewrite the question plan (engine.py, rules/). */
module Engine {
  import opened Text
  import opened PolicyTypes
  import opened PolicyAutomata
  import opened Questions
  import Interceptors

  const CLOSURE_MIN_TURNS := 4

  const PLACEHOLDER_QUESTION := "[procedural_unblock: redirect to goal]"

  const TOPIC := "{topic}"
  const FALLBACK_TOPIC := "este tema"

  function Contextualize(text: string, activity: Option<ActivityRef>): string {
    if !Contains(text, TOPIC) then text
    else
      var title := if activity.Some? then Strip(activity.value.title) else "";
      ReplaceAll(text, TOPIC, if title == "" then FALLBACK_TOPIC else title)
  }

  // ----- what a turn decides, aspect by aspect -----

  function ScoresOf(c: Context): Scores {
    ComputeScores(c.window, c.signals)
  }

  function RecoveryOf(c: Context): (Recovery, nat) {
    NextRecovery(c.carry.recovery, c.carry.turnsInRecovery, ScoresOf(c), c.signals, c.window)
  }

  /** Paused while recovering. */
  function FsmOf(c: Context): FsmState {
    if RecoveryOf(c).0 == STABILIZE then c.carry.fsm
    else Transition(c.carry.fsm, c.turnCount, ScoresOf(c), c.signals)
  }

  function LadderOf(c: Context): (Rung, nat, nat) {
    NextStep(c.carry.hint, c.carry.turnsInHint, c.carry.lowStreak, ScoresOf(c), c.signals, RecoveryOf(c).0)
  }

  function Forced(c: Context): Option<Family> {
    if RecoveryOf(c).0 == STABILIZE then Some(RECOVERY_STABILIZE) else None
  }

  function Selected(bank: seq<Question>, c: Context): (q: Question)
    requires IsBank(bank)
    ensures q in bank && q.variants != []
  {
    SelectQuestion(bank, FsmOf(c), ScoresOf(c), c.carry.recentIds, c.signals, Forced(c))
  }

  /** The student demands the answer without an attempt. */
  predicate Elicits(c: Context) {
    c.signals.directAnswerRequest && !c.signals.attemptPresent
  }

  /** The question whose id the turn records. */
  function Asked(bank: seq<Question>, c: Context): (q: Question)
    requires IsBank(bank)
    ensures q in bank && q.variants != []
  {
    if Elicits(c) then SelectAttemptQuestion(bank, c.carry.recentIds) else Selected(bank, c)
  }

  predicate ToneSupports(c: Context) {
    ScoresOf(c).affectLoad > 0.6
  }

  predicate ToneChallenges(c: Context) {
    !ToneSupports(c) && ScoresOf(c).miscalibration > 0.6 && c.signals.hedging < 0.2
  }

  predicate ToneFires(c: Context) {
    AllowsIntervention(c.carry.sinceMeta) && (ToneSupports(c) || ToneChallenges(c))
  }

  predicate ProcFires(c: Context) {
    ScoresOf(c).proceduralBlock > FIRE_THRESHOLD && AllowsIntervention(c.carry.sinceProc)
  }

  predicate ClosureEligible(c: Context) {
    c.turnCount >= CLOSURE_MIN_TURNS && FsmOf(c) != PLANNING && RecoveryOf(c).0 == NORMAL
  }

  /** The student signalled being done, now or in the two turns before. */
  predicate SignalledDone(c: Context) {
    c.signals.doneSignal || exists s | s in LastN(c.window, 2) :: s.doneSignal
  }

  function ClosureDirectives(c: Context): seq<Directive> {
    if !ClosureEligible(c) then [] else if SignalledDone(c) then [ClosureEscalated] else [Closure]
  }

  // ----- the plan after the first k rules -----

  datatype Rule = ElicitAttemptRule | NoDirectAnswersRule | HintLadderRule | ToneByConfidenceRule | ProceduralUnblockRule

  const RULES := [ElicitAttemptRule, NoDirectAnswersRule, HintLadderRule, ToneByConfidenceRule, ProceduralUnblockRule]

  predicate Essential(rule: Rule) {
    rule != ToneByConfidenceRule
  }

  function When<T>(b: bool, x: T): seq<T> {
    if b then [x] else []
  }

  function DirectiveOf(c: Context, rule: Rule): seq<Directive> {
    match rule
    case ElicitAttemptRule => When(Elicits(c), ElicitAttempt)
    case NoDirectAnswersRule => When(c.asksForAnswer, NoDirectAnswer)
    case HintLadderRule => [ForRung(LadderOf(c).0)]
    case ToneByConfidenceRule => When(ToneFires(c), if ToneSupports(c) then SupportiveTone else ChallengingTone)
    case ProceduralUnblockRule => []
  }

  function MarkOf(c: Context, rule: Rule): seq<Applied> {
    match rule
    case ElicitAttemptRule => When(Elicits(c), ElicitAttemptFired)
    case NoDirectAnswersRule => When(c.asksForAnswer, NoDirectAnswersFired)
    case HintLadderRule => [HintLadderFired(LadderOf(c).0)]
    case ToneByConfidenceRule => When(ToneFires(c), ToneByConfidenceFired)
    case ProceduralUnblockRule => When(ProcFires(c), ProceduralUnblockFired)
  }

  /** The directives the first k rules gather, the last one's override aside. */
  function Directives(c: Context, k: nat): seq<Directive>
    requires k <= |RULES|
  {
    if k == 0 then [] else Directives(c, k - 1) + DirectiveOf(c, RULES[k - 1])
  }

  /** What the first k rules report. */
  function Marks(c: Context, k: nat): seq<Applied>
    requires k <= |RULES|
  {
    if k == 0 then [] else Marks(c, k - 1) + MarkOf(c, RULES[k - 1])
  }

  function PlanAfter(bank: seq<Question>, c: Context, k: nat): Plan
    requires IsBank(bank) && k <= |RULES|
  {
    var q := if k >= 1 then Asked(bank, c) else Selected(bank, c);
    var tone :=
      if !(k >= 4 && ToneFires(c)) then q.tone else if ToneSupports(c) then Supportive else Challenging;
    if k >= 5 && ProcFires(c) then Plan(q.id, PLACEHOLDER_QUESTION, tone, false, true, false, [ScaffoldingPivot])
    else Plan(q.id, Contextualize(q.variants[0], c.activity), tone,
              !(k >= 3 && LadderOf(c).0 == BOTTOM_OUT), true, k >= 1 && Elicits(c), Directives(c, k))
  }

  function Decide(bank: seq<Question>, c: Context): Decision
    requires IsBank(bank)
  {
    var plan := PlanAfter(bank, c, 5);
    Decision(
      FsmOf(c),
      plan.(directives := plan.directives + ClosureDirectives(c)),
      Marks(c, 5),
      ScoresOf(c),
      LadderOf(c).0, LadderOf(c).1, LadderOf(c).2,
      RecoveryOf(c).0, RecoveryOf(c).1,
      CooldownNext(c.carry.sinceMeta, ToneFires(c)),
      CooldownNext(c.carry.sinceProc, ProcFires(c)),
      ClosureEligible(c))
  }

  // ----- the pipeline in place -----

  class QuestionPlan {
    var questionId: string
    var questionText: string
    var tone: Tone
    var forbidDirectAnswer: bool
    var mustAskQuestion: bool
    var mustElicitAttempt: bool
    var directives: seq<Directive>

    constructor (questionId: string, questionText: string, tone: Tone)
      ensures View() == Plan(questionId, questionText, tone, true, true, false, [])
    {
      this.questionId, this.questionText, this.tone := questionId, questionText, tone;
      forbidDirectAnswer, mustAskQuestion, mustElicitAttempt := true, true, false;
      directives := [];
    }

    function View(): Plan
      reads this
    {
      Plan(questionId, questionText, tone, forbidDirectAnswer, mustAskQuestion, mustElicitAttempt, directives)
    }
  }

  /** The caller's values, and what the pipeline fills in on the way. */
  class PolicyContext {
    const given: Context
    var scores: Option<Scores>
    var hint: Rung

    constructor (given: Context)
      ensures this.given == given && scores == None && hint == given.carry.hint
    {
      this.given := given;
      scores, hint := None, given.carry.hint;
    }
  }

  method ApplyElicitAttempt(bank: seq<Question>, ctx: PolicyContext, plan: QuestionPlan) returns (fired: Option<Applied>)
    requires IsBank(bank)
    modifies plan
    ensures fired == if Elicits(ctx.given) then Some(ElicitAttemptFired) else None
    ensures fired.None? ==> plan.View() == old(plan.View())
    ensures fired.Some? ==>
              var q := SelectAttemptQuestion(bank, ctx.given.carry.recentIds);
              q.variants != [] &&
              plan.View() == Plan(q.id, Contextualize(q.variants[0], ctx.given.activity), q.tone, true,
                                  old(plan.mustAskQuestion), true, old(plan.directives) + [ElicitAttempt])
  {
    hide Contextualize, SelectAttemptQuestion;
    if !ctx.given.signals.directAnswerRequest || ctx.given.signals.attemptPresent {
      return None;
    }
    var q := SelectAttemptQuestion(bank, ctx.given.carry.recentIds);
    assert q in bank;
    plan.questionId, plan.questionText, plan.tone := q.id, Contextualize(q.variants[0], ctx.given.activity), q.tone;
    plan.mustElicitAttempt, plan.forbidDirectAnswer := true, true;
    plan.directives := plan.directives + [ElicitAttempt];
    return Some(ElicitAttemptFired);
  }

  method ApplyNoDirectAnswers(ctx: PolicyContext, plan: QuestionPlan) returns (fired: Option<Applied>)
    modifies plan
    ensures fired == if ctx.given.asksForAnswer then Some(NoDirectAnswersFired) else None
    ensures plan.View() ==
            if fired.None? then old(plan.View())
            else old(plan.View()).(forbidDirectAnswer := true, mustAskQuestion := true,
                                   directives := old(plan.directives) + [NoDirectAnswer])
  {
    if !ctx.given.asksForAnswer { return None; }
    plan.forbidDirectAnswer, plan.mustAskQuestion := true, true;
    plan.directives := plan.directives + [NoDirectAnswer];
    return Some(NoDirectAnswersFired);
  }

  /** Runs after the ladder has moved: reads the context's current rung. */
  method ApplyHintLadder(ctx: PolicyContext, plan: QuestionPlan) returns (fired: Option<Applied>)
    modifies plan
    ensures fired == Some(HintLadderFired(ctx.hint))
    ensures plan.View() ==
            old(plan.View()).(forbidDirectAnswer := ctx.hint != BOTTOM_OUT && old(plan.forbidDirectAnswer),
                              directives := old(plan.directives) + [ForRung(ctx.hint)])
  {
    plan.directives := plan.directives + [ForRung(ctx.hint)];
    if ctx.hint == BOTTOM_OUT { plan.forbidDirectAnswer := false; }
    return Some(HintLadderFired(ctx.hint));
  }

  method ApplyToneByConfidence(ctx: PolicyContext, plan: QuestionPlan) returns (fired: Option<Applied>)
    requires ctx.scores == Some(ScoresOf(ctx.given))
    modifies plan
    ensures fired == if ToneSupports(ctx.given) || ToneChallenges(ctx.given) then Some(ToneByConfidenceFired) else None
    ensures plan.View() ==
            if fired.None? then old(plan.View())
            else if ToneSupports(ctx.given) then
              old(plan.View()).(tone := Supportive, directives := old(plan.directives) + [SupportiveTone])
            else old(plan.View()).(tone := Challenging, directives := old(plan.directives) + [ChallengingTone])
  {
    hide ScoresOf;
    var scores := ctx.scores.value;
    if scores.affectLoad > 0.6 {
      plan.tone := Supportive;
      plan.directives := plan.directives + [SupportiveTone];
      return Some(ToneByConfidenceFired);
    }
    if scores.miscalibration > 0.6 && ctx.given.signals.hedging < 0.2 {
      plan.tone := Challenging;
      plan.directives := plan.directives + [ChallengingTone];
      return Some(ToneByConfidenceFired);
    }
    return None;
  }

  /** Throws away the directives of every earlier rule. */
  method ApplyProceduralUnblock(ctx: PolicyContext, plan: QuestionPlan) returns (fired: Option<Applied>)
    requires ctx.scores == Some(ScoresOf(ctx.given))
    modifies plan
    ensures fired == if ProcFires(ctx.given) then Some(ProceduralUnblockFired) else None
    ensures plan.View() ==
            if fired.None? then old(plan.View())
            else old(plan.View()).(questionText := PLACEHOLDER_QUESTION, forbidDirectAnswer := false,
                                   mustElicitAttempt := false, directives := [ScaffoldingPivot])
  {
    hide ScoresOf;
    if ctx.scores.value.proceduralBlock <= FIRE_THRESHOLD { return None; }
    if ctx.given.carry.sinceProc < COOLDOWN_TURNS { return None; }
    plan.directives := [ScaffoldingPivot];
    plan.forbidDirectAnswer, plan.mustElicitAttempt := false, false;
    plan.questionText := PLACEHOLDER_QUESTION;
    return Some(ProceduralUnblockFired);
  }

  method Apply(rule: Rule, bank: seq<Question>, ctx: PolicyContext, plan: QuestionPlan, ghost k: nat)
    returns (fired: Option<Applied>)
    requires IsBank(bank) && k < |RULES| && rule == RULES[k]
    requires ctx.scores == Some(ScoresOf(ctx.given)) && ctx.hint == LadderOf(ctx.given).0
    requires plan.View() == PlanAfter(bank, ctx.given, k)
    requires Essential(rule) || AllowsIntervention(ctx.given.carry.sinceMeta)
    modifies plan
    ensures plan.View() == PlanAfter(bank, ctx.given, k + 1)
    ensures Marks(ctx.given, k + 1) ==
            Marks(ctx.given, k) + if fired.Some? then [fired.value] else []
    ensures rule == ToneByConfidenceRule ==> (fired.Some? <==> ToneFires(ctx.given))
  {
    hide PlanAfter, Marks, ScoresOf, LadderOf, Contextualize, Selected, SelectAttemptQuestion, ToneSupports,
         ToneChallenges, ProcFires;
    PlanStep(bank, ctx.given, k);
    MarksStep(ctx.given, k);
    match rule
    case ElicitAttemptRule => fired := ApplyElicitAttempt(bank, ctx, plan);
    case NoDirectAnswersRule => fired := ApplyNoDirectAnswers(ctx, plan);
    case HintLadderRule => fired := ApplyHintLadder(ctx, plan);
    case ToneByConfidenceRule => fired := ApplyToneByConfidence(ctx, plan);
    case ProceduralUnblockRule => fired := ApplyProceduralUnblock(ctx, plan);
  }

  /** What each rule adds to the plan built so far. */
  lemma PlanStep(bank: seq<Question>, c: Context, k: nat)
    requires IsBank(bank) && k < |RULES|
    ensures var p, n := PlanAfter(bank, c, k), PlanAfter(bank, c, k + 1);
            match RULES[k]
            case ElicitAttemptRule =>
              if !Elicits(c) then n == p
              else
                var q := SelectAttemptQuestion(bank, c.carry.recentIds);
                q.variants != [] &&
                n == Plan(q.id, Contextualize(q.variants[0], c.activity), q.tone, true, p.mustAskQuestion, true,
                          p.directives + [ElicitAttempt])
            case NoDirectAnswersRule =>
              n == if c.asksForAnswer
                   then p.(forbidDirectAnswer := true, mustAskQuestion := true, directives := p.directives + [NoDirectAnswer])
                   else p
            case HintLadderRule =>
              n == p.(forbidDirectAnswer := LadderOf(c).0 != BOTTOM_OUT && p.forbidDirectAnswer,
                      directives := p.directives + [ForRung(LadderOf(c).0)])
            case ToneByConfidenceRule =>
              n == if !ToneFires(c) then p
                   else if ToneSupports(c) then p.(tone := Supportive, directives := p.directives + [SupportiveTone])
                   else p.(tone := Challenging, directives := p.directives + [ChallengingTone])
            case ProceduralUnblockRule =>
              n == if ProcFires(c)
                   then p.(questionText := PLACEHOLDER_QUESTION, forbidDirectAnswer := false, mustElicitAttempt := false,
                           directives := [ScaffoldingPivot])
                   else p
  {
    hide Contextualize, Selected, SelectAttemptQuestion, ToneFires, ToneSupports, LadderOf, ProcFires, Elicits,
         Directives;
    MarksStep(c, k);
  }

  lemma MarksStep(c: Context, k: nat)
    requires k < |RULES|
    ensures Marks(c, k + 1) == Marks(c, k) + MarkOf(c, RULES[k])
    ensures Directives(c, k + 1) == Directives(c, k) + DirectiveOf(c, RULES[k])
  {
    hide MarkOf, DirectiveOf;
  }

  lemma OnlyToneIsOptional(k: nat)
    requires k < |RULES|
    ensures !Essential(RULES[k]) <==> k == 3
    ensures RULES[k] == ToneByConfidenceRule <==> k == 3
  {
  }

  /** Every rule in order, the non-essential one only when the cooldown allows. */
  method RunRules(bank: seq<Question>, ctx: PolicyContext, plan: QuestionPlan)
    returns (applied: seq<Applied>, toneFired: bool)
    requires IsBank(bank)
    requires ctx.scores == Some(ScoresOf(ctx.given)) && ctx.hint == LadderOf(ctx.given).0
    requires plan.View() == PlanAfter(bank, ctx.given, 0)
    modifies plan
    ensures plan.View() == PlanAfter(bank, ctx.given, 5)
    ensures applied == Marks(ctx.given, 5) && toneFired == ToneFires(ctx.given)
  {
    hide ScoresOf, LadderOf, ToneFires, PlanAfter, Marks, Essential, QuestionPlan.View, IsBank;
    var c := ctx.given;
    NothingApplied(bank, c);
    applied, toneFired := [], false;
    for k := 0 to |RULES|
      invariant plan.View() == PlanAfter(bank, c, k) && applied == Marks(c, k)
      invariant toneFired == (k >= 4 && ToneFires(c))
    {
      OnlyToneIsOptional(k);
      if !Essential(RULES[k]) && !AllowsIntervention(c.carry.sinceMeta) {
        Suppressed(bank, c);
        continue;
      }
      var fired := Apply(RULES[k], bank, ctx, plan, k);
      if fired.Some? {
        applied := applied + [fired.value];
        if !Essential(RULES[k]) { toneFired := true; }
      }
    }
  }

  /** Scores, recovery, the paused or moving FSM, then the ladder; the context ends on this turn's rung. */
  method Advance(ctx: PolicyContext)
    returns (recovery: Recovery, turnsInRecovery: nat, state: FsmState, turnsInHint: nat, lowStreak: nat)
    requires ctx.hint == ctx.given.carry.hint
    modifies ctx
    ensures ctx.scores == Some(ScoresOf(ctx.given))
    ensures (recovery, turnsInRecovery) == RecoveryOf(ctx.given) && state == FsmOf(ctx.given)
    ensures (ctx.hint, turnsInHint, lowStreak) == LadderOf(ctx.given)
  {
    hide ComputeScores, NextRecovery, Transition, NextStep;
    var c := ctx.given;
    var scores := ComputeScores(c.window, c.signals);
    ctx.scores := Some(scores);
    var r := NextRecovery(c.carry.recovery, c.carry.turnsInRecovery, scores, c.signals, c.window);
    recovery, turnsInRecovery := r.0, r.1;
    state := c.carry.fsm;
    if recovery != STABILIZE { state := Transition(c.carry.fsm, c.turnCount, scores, c.signals); }
    var l := NextStep(ctx.hint, c.carry.turnsInHint, c.carry.lowStreak, scores, c.signals, recovery);
    ctx.hint, turnsInHint, lowStreak := l.0, l.1, l.2;
  }

  /** The whole pipeline: automata, question, rules in order under the cooldown, closure. */
  method Evaluate(bank: seq<Question>, ctx: PolicyContext) returns (d: Decision)
    requires IsBank(bank) && ctx.hint == ctx.given.carry.hint
    modifies ctx
    ensures d == Decide(bank, ctx.given)
    ensures ctx.hint == d.nextHint && ctx.scores == Some(d.scores)
  {
    hide ScoresOf, RecoveryOf, FsmOf, LadderOf, SelectQuestion, Contextualize, SignalledDone, ToneFires, PlanAfter,
         Marks, Selected, ProcFires, CooldownNext, Decide, ClosureEligible, IsBank;
    var c := ctx.given;
    var recovery, turnsInRecovery, state, turnsInHint, lowStreak := Advance(ctx);
    var scores := ctx.scores.value;
    var force := if recovery == STABILIZE then Some(RECOVERY_STABILIZE) else None;
    SelectedIs(bank, c);
    var q := SelectQuestion(bank, state, scores, c.carry.recentIds, c.signals, force);
    var plan := new QuestionPlan(q.id, Contextualize(q.variants[0], c.activity), q.tone);
    NothingApplied(bank, c);
    var applied, toneFired := RunRules(bank, ctx, plan);
    var eligible := EligibleNow(c, state, recovery);
    if eligible {
      plan.directives := plan.directives + [if SignalledDone(c) then ClosureEscalated else Closure];
    }
    ProcIsApplied(c);
    var sinceProc := CooldownNext(c.carry.sinceProc, ProceduralUnblockFired in applied);
    d := Decision(state, plan.View(), applied, scores, ctx.hint, turnsInHint, lowStreak, recovery,
                  turnsInRecovery, CooldownNext(c.carry.sinceMeta, toneFired), sinceProc, eligible);
    Closes(bank, c, d);
  }

  predicate EligibleNow(c: Context, state: FsmState, recovery: Recovery) {
    c.turnCount >= CLOSURE_MIN_TURNS && state in {MONITORING, EVALUATION} && recovery == NORMAL
  }

  lemma SelectedIs(bank: seq<Question>, c: Context)
    requires IsBank(bank)
    ensures bank != []
    ensures Selected(bank, c) ==
            SelectQuestion(bank, FsmOf(c), ScoresOf(c), c.carry.recentIds, c.signals,
                           if RecoveryOf(c).0 == STABILIZE then Some(RECOVERY_STABILIZE) else None)
  {
  }

  lemma NothingApplied(bank: seq<Question>, c: Context)
    requires IsBank(bank)
    ensures Marks(c, 0) == []
    ensures var q := Selected(bank, c);
            PlanAfter(bank, c, 0) == Plan(q.id, Contextualize(q.variants[0], c.activity), q.tone, true, true, false, [])
  {
    hide Selected, Contextualize, ToneFires, LadderOf, ProcFires;
  }

  lemma Suppressed(bank: seq<Question>, c: Context)
    requires IsBank(bank) && !AllowsIntervention(c.carry.sinceMeta)
    ensures !ToneFires(c)
    ensures PlanAfter(bank, c, 4) == PlanAfter(bank, c, 3) && Marks(c, 4) == Marks(c, 3)
  {
    hide PlanAfter, Marks, ScoresOf, Elicits;
    PlanStep(bank, c, 3);
    MarksStep(c, 3);
  }

  lemma ProcIsApplied(c: Context)
    ensures ProceduralUnblockFired in Marks(c, 5) <==> ProcFires(c)
  {
    hide Marks, Elicits, ToneFires, LadderOf, ProcFires;
    AllMarks(c);
  }

  lemma AllMarks(c: Context)
    ensures Marks(c, 5) == When(Elicits(c), ElicitAttemptFired) + When(c.asksForAnswer, NoDirectAnswersFired)
                               + [HintLadderFired(LadderOf(c).0)] + When(ToneFires(c), ToneByConfidenceFired)
                               + When(ProcFires(c), ProceduralUnblockFired)
  {
    hide When, Elicits, ToneFires, LadderOf, ProcFires, Marks;
    NothingMarked(c);
    MarksStep(c, 0); MarksStep(c, 1); MarksStep(c, 2); MarksStep(c, 3); MarksStep(c, 4);
    assert [] + When(Elicits(c), ElicitAttemptFired) == When(Elicits(c), ElicitAttemptFired);
  }

  lemma NothingMarked(c: Context)
    ensures Marks(c, 0) == []
  {
  }

  lemma Closes(bank: seq<Question>, c: Context, d: Decision)
    requires IsBank(bank)
    requires d.closureEligible == EligibleNow(c, FsmOf(c), RecoveryOf(c).0)
    requires var p := PlanAfter(bank, c, 5);
             d == Decision(FsmOf(c),
                           if d.closureEligible
                           then p.(directives := p.directives + [if SignalledDone(c) then ClosureEscalated else Closure])
                           else p,
                           Marks(c, 5), ScoresOf(c), LadderOf(c).0, LadderOf(c).1, LadderOf(c).2, RecoveryOf(c).0,
                           RecoveryOf(c).1, CooldownNext(c.carry.sinceMeta, ToneFires(c)),
                           CooldownNext(c.carry.sinceProc, ProcFires(c)), d.closureEligible)
    ensures d == Decide(bank, c)
  {
    hide PlanAfter, Marks, ScoresOf, LadderOf, RecoveryOf, FsmOf, CooldownNext, ToneFires, ProcFires, SignalledDone;
    assert PlanAfter(bank, c, 5).directives + [] == PlanAfter(bank, c, 5).directives;
  }

  // ----- what the rules together guarantee -----

  /** The guardrail is off exactly on the last rung and on a procedural hand-off; the hand-off takes an earlier attempt,
      a procedural request and a second request in view, so it never happens on a first turn. */
  lemma GuardrailRelaxedIff(bank: seq<Question>, c: Context)
    requires IsBank(bank)
    ensures var d := Decide(bank, c);
            && (!d.plan.forbidDirectAnswer <==> d.nextHint == BOTTOM_OUT || ProceduralUnblockFired in d.applied)
            && (ProceduralUnblockFired in d.applied
                <==> ProceduralStuck(c.window, c.signals) && c.carry.sinceProc >= COOLDOWN_TURNS)
            && (ProceduralUnblockFired in d.applied ==> PriorAttempt(c.window) && c.window != [])
  {
    hide Marks, LadderOf, ProceduralStuck, ProceduralBlock, Selected, Asked, Contextualize, ToneFires, ToneSupports,
         RecoveryOf, FsmOf, ClosureEligible, PriorAttempt;
    ProcIsApplied(c);
    ProceduralBlockIff(c.window, c.signals);
    if ProceduralStuck(c.window, c.signals) { ProceduralStuckNeeds(c.window, c.signals); }
  }

  /** All directives of a turn, in order: the hand-off discards everything the other rules said, closure comes last. */
  lemma DirectivesInOrder(bank: seq<Question>, c: Context)
    requires IsBank(bank)
    ensures Decide(bank, c).plan.directives ==
            (if ProcFires(c) then [ScaffoldingPivot]
             else When(Elicits(c), ElicitAttempt) + When(c.asksForAnswer, NoDirectAnswer) + [ForRung(LadderOf(c).0)]
                  + When(ToneFires(c), if ToneSupports(c) then SupportiveTone else ChallengingTone))
            + ClosureDirectives(c)
  {
    hide Marks, LadderOf, Selected, Asked, Contextualize, ToneFires, ToneSupports, ProcFires, ClosureDirectives, Elicits,
         When, Directives;
    AllDirectives(c);
  }

  lemma AllDirectives(c: Context)
    ensures Directives(c, 5) ==
            When(Elicits(c), ElicitAttempt) + When(c.asksForAnswer, NoDirectAnswer) + [ForRung(LadderOf(c).0)]
            + When(ToneFires(c), if ToneSupports(c) then SupportiveTone else ChallengingTone)
  {
    hide When, Elicits, ToneFires, ToneSupports, LadderOf, ProcFires, Directives;
    NothingDirected(c);
    MarksStep(c, 0); MarksStep(c, 1); MarksStep(c, 2); MarksStep(c, 3); MarksStep(c, 4);
    assert [] + When(Elicits(c), ElicitAttempt) == When(Elicits(c), ElicitAttempt);
    assert Directives(c, 4) + [] == Directives(c, 4);
  }

  lemma NothingDirected(c: Context)
    ensures Directives(c, 0) == []
  {
  }

  /** A challenging tone only ever meets a confident demand for the answer without an attempt, so it always comes with
      the turn that asks for one. */
  lemma ChallengesOnlyDemands(c: Context)
    ensures ToneChallenges(c) <==> Elicits(c) && c.signals.hedging < 0.1 && !ToneSupports(c)
    ensures ToneSupports(c) <==> 0.6 * c.signals.confusion + 0.4 * c.signals.hedging > 0.6
  {
    hide ProceduralBlock, HintAbuse, Struggle;
  }

  predicate DoneBack(c: Context, n: nat) {
    n < |c.window| && c.window[|c.window| - 1 - n].doneSignal
  }

  /** The firm closing directive goes out on an eligible turn when the student signalled being done on it or on one of
      the two turns before; a plain one on every other eligible turn. */
  lemma EscalatedIff(bank: seq<Question>, c: Context)
    requires IsBank(bank)
    ensures var d := Decide(bank, c);
            && (ClosureEscalated in d.plan.directives <==>
                  d.closureEligible && (c.signals.doneSignal || DoneBack(c, 0) || DoneBack(c, 1)))
            && (Closure in d.plan.directives <==> d.closureEligible && ClosureEscalated !in d.plan.directives)
  {
    hide LadderOf, Selected, Asked, Contextualize, ToneFires, ToneSupports, ProcFires, Elicits, Marks, Directives,
         FsmOf, RecoveryOf, LastN, SignalledDone, ClosureEligible, ScoresOf;
    DirectivesInOrder(bank, c);
    DoneIff(c);
  }

  lemma DoneIff(c: Context)
    ensures SignalledDone(c) <==> c.signals.doneSignal || DoneBack(c, 0) || DoneBack(c, 1)
  {
    hide LastN, DoneBack;
    LastTwo(c.window);
    var w := c.window;
    if |w| >= 2 {
      AmongTwo(w[|w| - 2], w[|w| - 1]);
      assert DoneBack(c, 0) == w[|w| - 1].doneSignal && DoneBack(c, 1) == w[|w| - 2].doneSignal by { BackTwo(c); }
    } else {
      BackOne(c);
    }
  }

  lemma LastTwo(w: seq<UserSignals>)
    ensures LastN(w, 2) == if |w| >= 2 then [w[|w| - 2], w[|w| - 1]] else w
  {
  }

  lemma AmongTwo(a: UserSignals, b: UserSignals)
    ensures (exists s | s in [a, b] :: s.doneSignal) <==> a.doneSignal || b.doneSignal
  {
    assert a in [a, b] && b in [a, b];
  }

  lemma BackTwo(c: Context)
    requires |c.window| >= 2
    ensures DoneBack(c, 0) == c.window[|c.window| - 1].doneSignal && DoneBack(c, 1) == c.window[|c.window| - 2].doneSignal
  {
  }

  lemma BackOne(c: Context)
    requires |c.window| <= 1
    ensures (exists s | s in c.window :: s.doneSignal) <==> DoneBack(c, 0)
    ensures !DoneBack(c, 1)
  {
    if |c.window| == 1 { assert c.window[0] in c.window; }
  }

  /** A demand for the answer without an attempt is routed to the attempt pool. It goes unguarded exactly on a hand-off,
      or from the last rung, which it never climbs to but stays on while recovering or unless this is a second
      low-struggle turn in a row; then, without a hand-off, the turn forbids nothing and asks for an attempt at once. */
  lemma DemandUnguardedIff(bank: seq<Question>, c: Context)
    requires IsBank(bank) && Elicits(c)
    ensures var d := Decide(bank, c);
            var handsOff := ProceduralStuck(c.window, c.signals) && c.carry.sinceProc >= COOLDOWN_TURNS;
            && Asked(bank, c).family == ATTEMPT_ELICITATION && d.plan.questionId == Asked(bank, c).id
            && (d.plan.mustElicitAttempt <==> !handsOff) && (ElicitAttempt in d.plan.directives <==> !handsOff)
            && (!d.plan.forbidDirectAnswer
                <==> handsOff
                     || (c.carry.hint == BOTTOM_OUT
                         && (|| Overwhelms(c.carry.recovery, c.carry.turnsInRecovery, c.signals, c.window)
                             || Struggle(c.signals) >= STRUGGLE_LOW || c.carry.lowStreak == 0)))
  {
    hide Contextualize, ToneFires, ToneSupports, Marks, Directives, ClosureDirectives, FsmOf, LadderOf, ProcFires,
         Overwhelms, ProceduralStuck, When;
    DirectivesInOrder(bank, c);
    ElicitListed(c);
    HandOffIff(c);
    LastRungIff(c);
  }

  lemma ElicitListed(c: Context)
    requires Elicits(c)
    ensures ElicitAttempt in When(Elicits(c), ElicitAttempt) && ElicitAttempt !in ClosureDirectives(c)
  {
    hide SignalledDone, ClosureEligible;
  }

  lemma HandOffIff(c: Context)
    ensures ProcFires(c) <==> ProceduralStuck(c.window, c.signals) && c.carry.sinceProc >= COOLDOWN_TURNS
  {
    hide ProceduralStuck, ProceduralBlock;
    ProceduralBlockIff(c.window, c.signals);
  }

  lemma LastRungIff(c: Context)
    requires Elicits(c)
    ensures LadderOf(c).0 == BOTTOM_OUT <==>
            c.carry.hint == BOTTOM_OUT
            && (|| Overwhelms(c.carry.recovery, c.carry.turnsInRecovery, c.signals, c.window)
                || Struggle(c.signals) >= STRUGGLE_LOW || c.carry.lowStreak == 0)
  {
    hide Overwhelms, Struggle, ProceduralBlock, HintAbuse, Miscalibration, NextRecovery;
    RecoveringIff(c.carry.recovery, c.carry.turnsInRecovery, c.signals, c.window);
  }

  /** On a hand-off turn the planned question is the routing placeholder; an interceptor still appends it, and so sends
      it to the student, exactly when the reply is rhetorical. */
  lemma PlaceholderReachesStudentIff(bank: seq<Question>, c: Context, reply: string)
    requires IsBank(bank) && ProcFires(c)
    ensures var p := Decide(bank, c).plan;
            var sent := Interceptors.Checked(p.forbidDirectAnswer, reply, p.questionText);
            && (sent.modified <==> Interceptors.IsRhetorical(reply))
            && (sent.modified ==> sent.text == RStrip(reply) + "\n\n" + PLACEHOLDER_QUESTION)
            && (!sent.modified ==> sent.text == reply)
            && p.questionId == Asked(bank, c).id
  {
    hide Selected, Asked, Contextualize, ToneFires, ToneSupports, ProcFires, LadderOf, Marks, Directives,
         ClosureDirectives, Interceptors.IsRhetorical, Interceptors.Intercepted, FsmOf, RecoveryOf, RStrip, ScoresOf;
    var p := Decide(bank, c).plan;
    Interceptors.CheckedUnfolds(p.forbidDirectAnswer, reply, p.questionText);
  }

  /** Off the last rung and without a hand-off, when the student reads an open question whatever the bank planned: the
      reply or the planned question has one, or they form one where the reply breaks off, or the question does with
      itself when it is appended twice. */
  lemma GuardedTurnAsksOpenlyIff(bank: seq<Question>, c: Context, reply: string)
    requires IsBank(bank)
    requires LadderOf(c).0 != BOTTOM_OUT && !ProcFires(c)
    ensures var p := Decide(bank, c).plan;
            var sent := Interceptors.Checked(p.forbidDirectAnswer, reply, p.questionText);
            && p.forbidDirectAnswer && p.questionText == Contextualize(Asked(bank, c).variants[0], c.activity)
            && (Interceptors.HasOpen(sent.text) <==>
                  || Interceptors.HasOpen(reply) || Interceptors.HasOpen(p.questionText)
                  || (Interceptors.Appends(true, reply, p.questionText) >= 1 && Interceptors.GluedOpen(reply, p.questionText))
                  || (Interceptors.Appends(true, reply, p.questionText) == 2
                      && Interceptors.GluedOpen(p.questionText, p.questionText)))
            && (LStrip(p.questionText) != "" ==> sent.text == reply || Interceptors.Wraps(sent.text, reply, p.questionText))
  {
    hide Selected, Asked, Contextualize, ToneFires, ToneSupports, ProcFires, LadderOf, Marks, Directives,
         ClosureDirectives, Interceptors.HasOpen, Interceptors.Checked, FsmOf, RecoveryOf, Interceptors.Wraps, ScoresOf,
         Interceptors.Appends, Interceptors.GluedOpen, LStrip;
    var question := Decide(bank, c).plan.questionText;
    Interceptors.AsksOpenlyIff(true, reply, question);
    if LStrip(question) != "" { Interceptors.CheckedWraps(true, reply, question); }
  }
}
