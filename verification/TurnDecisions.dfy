/** What one turn decides, in terms of what the student did and where the session stood (scores.py, fsm.py, selector.py,
    contextualizer.py, rules/). */
module TurnDecisions {
  import opened Text
  import opened PolicyTypes
  import opened PolicyAutomata
  import opened Questions
  import opened Engine

  // ----- scores -----

  function Bit(b: bool): nat {
    if b then 1 else 0
  }

  predicate DemandBack(window: seq<UserSignals>, n: nat) {
    n < |window| && window[|window| - 1 - n].directAnswerRequest
  }

  /** No clamp of the sums ever bites: the weights add up to one, latency counts for at most a fifth. */
  lemma ScoresInSignals(window: seq<UserSignals>, s: UserSignals)
    ensures var x := ComputeScores(window, s);
            && x.struggle == 0.35 * s.hedging + 0.25 * s.confusion
                             + (if s.latencyZ <= 0.0 then 0.0 else if s.latencyZ >= 2.0 then 0.2 else 0.1 * s.latencyZ)
                             + (if s.lengthZ <= -1.0 then 0.2 else 0.0)
            && x.affectLoad == 0.6 * s.confusion + 0.4 * s.hedging
            && x.miscalibration == (if s.hedging >= 0.1 || !s.directAnswerRequest then 0.0
                                    else if s.attemptPresent then 0.5 else 1.0)
            && (x.helpAvoidance == 1.0 <==> s.latencyZ > 1.0 && s.lengthZ < -0.5 && !s.directAnswerRequest)
            && (x.helpAvoidance == 0.0 || x.helpAvoidance == 1.0)
            && 0.0 <= x.struggle <= 1.0 && 0.0 <= x.affectLoad <= 1.0
  {
    hide ProceduralBlock, HintAbuse;
  }

  /** Answer demands count from the second among three turns on. */
  lemma HintAbuseIff(window: seq<UserSignals>, s: UserSignals)
    ensures var asks := Bit(s.directAnswerRequest) + Bit(DemandBack(window, 0)) + Bit(DemandBack(window, 1));
            3.0 * HintAbuse(window, s) == if asks < 2 then 0.0 else asks as real
  {
    hide CountDirect, DemandBack, Bit;
    Demands(window, s);
    AbuseRate(CountDirect(LastN(window, 2) + [s]));
  }

  lemma AbuseRate(asks: nat)
    requires asks <= 3
    ensures 3.0 * (if asks < 2 then 0.0 else Clamp01(asks as real / 3 as real)) == if asks < 2 then 0.0 else asks as real
  {
  }

  lemma Demands(w: seq<UserSignals>, s: UserSignals)
    ensures CountDirect(LastN(w, 2) + [s]) == Bit(s.directAnswerRequest) + Bit(DemandBack(w, 0)) + Bit(DemandBack(w, 1))
    ensures CountDirect(LastN(w, 2) + [s]) <= 3
  {
    hide CountDirect;
    var r := LastN(w, 2);
    if |w| >= 2 {
      CountTwoMore(w[|w| - 2], w[|w| - 1], s);
      assert r + [s] == [w[|w| - 2], w[|w| - 1], s];
    } else if |w| == 1 {
      CountOneMore(w[0], s);
      assert r + [s] == [w[0], s];
    } else {
      CountOne(s);
      assert r + [s] == [s];
    }
  }

  lemma CountOne(c: UserSignals)
    ensures CountDirect([c]) == Bit(c.directAnswerRequest)
  {
  }

  lemma CountOneMore(b: UserSignals, c: UserSignals)
    ensures CountDirect([b, c]) == Bit(b.directAnswerRequest) + Bit(c.directAnswerRequest)
  {
    CountOne(c);
    assert [b, c][1..] == [c];
  }

  lemma CountTwoMore(a: UserSignals, b: UserSignals, c: UserSignals)
    ensures CountDirect([a, b, c]) == Bit(a.directAnswerRequest) + Bit(b.directAnswerRequest) + Bit(c.directAnswerRequest)
  {
    CountOneMore(b, c);
    assert [a, b, c][1..] == [b, c];
  }

  /** The damping without an earlier attempt keeps the score below the firing threshold; the score itself is the damped
      mix of the two rates over at most four turns. */
  lemma ProceduralBlockInRates(window: seq<UserSignals>, s: UserSignals)
    ensures var recent := ProceduralTurns(window, s);
            var (p, d, n) := (CountProcedural(recent), CountDirect(recent), |recent|);
            && n == (if |window| < 3 then |window| + 1 else 4)
            && 10.0 * n as real * ProceduralBlock(window, s)
               == (7 * p + 3 * d) as real * (if exists u | u in window :: u.attemptPresent then 1.0 else 0.3)
            && ((forall u | u in window :: !u.attemptPresent) ==> ProceduralBlock(window, s) <= 0.3)
  {
    hide ProceduralBlock, ProceduralTurns, CountProcedural, CountDirect, PriorAttempt, Blocked;
    var recent := ProceduralTurns(window, s);
    AttemptIn(window);
    BlockIs(window, s);
    MixedRate(CountProcedural(recent), CountDirect(recent), |recent|);
    TurnsInView(window, s);
  }

  function Blocked(prior: bool, p: nat, d: nat, n: nat): real
    requires n >= 1
  {
    Clamp01((if prior then 1.0 else 0.3) * (0.7 * (p as real / n as real) + 0.3 * (d as real / n as real)))
  }

  lemma BlockIs(window: seq<UserSignals>, s: UserSignals)
    ensures var recent := ProceduralTurns(window, s);
            ProceduralBlock(window, s)
            == Blocked(PriorAttempt(window), CountProcedural(recent), CountDirect(recent), |recent|)
  {
    hide CountProcedural, CountDirect, PriorAttempt, ProceduralTurns, Clamp01;
  }

  lemma TurnsInView(window: seq<UserSignals>, s: UserSignals)
    ensures |ProceduralTurns(window, s)| == if |window| < 3 then |window| + 1 else 4
  {
  }

  lemma AttemptIn(window: seq<UserSignals>)
    ensures PriorAttempt(window) <==> exists u | u in window :: u.attemptPresent
  {
    if i :| 0 <= i < |window| && window[i].attemptPresent { assert window[i] in window; }
  }

  lemma MixedRate(p: nat, d: nat, n: nat)
    requires p <= n && d <= n && 1 <= n <= 4
    ensures 10.0 * n as real * Blocked(true, p, d, n) == (7 * p + 3 * d) as real * 1.0
    ensures 10.0 * n as real * Blocked(false, p, d, n) == (7 * p + 3 * d) as real * 0.3
    ensures Blocked(false, p, d, n) <= 0.3
  {
    hide Blocked;
    RateIff(p, d, n);
    Unclamped(p, d, n);
    match n
    case 1 => case 2 => case 3 => case 4 =>
  }

  lemma Unclamped(p: nat, d: nat, n: nat)
    requires n >= 1 && 0.0 <= 0.7 * (p as real / n as real) + 0.3 * (d as real / n as real) <= 1.0
    ensures var mix := 0.7 * (p as real / n as real) + 0.3 * (d as real / n as real);
            Blocked(true, p, d, n) == mix && Blocked(false, p, d, n) == 0.3 * mix
  {
  }

  // ----- the phase -----

  /** When a turn outside recovery leaves its phase, in terms of the turn count and the signals; a recovering one never
      does. Evaluation comes early on an attempt that is calm, unconfused and not a confident demand, and is dropped
      under overload. */
  lemma PhaseMovesIff(c: Context)
    ensures var s := c.signals;
            var (struggle, load) := (Struggle(s), 0.6 * s.confusion + 0.4 * s.hedging);
            FsmOf(c) ==
            if RecoveryOf(c).0 == STABILIZE then c.carry.fsm
            else match c.carry.fsm
              case PLANNING => if c.turnCount < 2 then PLANNING else MONITORING
              case MONITORING =>
                if c.turnCount >= 6
                   || (c.turnCount >= 4 && s.attemptPresent && struggle < 0.3 && load < 0.3
                       && !(s.directAnswerRequest && s.hedging < 0.1))
                then EVALUATION else MONITORING
              case EVALUATION => if c.turnCount >= 10 || struggle > 0.7 || load > 0.7 then PLANNING else EVALUATION
  {
    hide Struggle, RecoveryOf, ProceduralBlock, HintAbuse;
  }

  // ----- the question -----

  /** Where the asked question comes from: the attempt pool on a demand, the recovery family while recovering, else the
      phase the turn moves to, as long as the bank has any of these. */
  lemma AskedFrom(bank: seq<Question>, c: Context)
    requires IsBank(bank)
    ensures var (d, q) := (Decide(bank, c), Asked(bank, c));
            && (Elicits(c) ==> q.family == ATTEMPT_ELICITATION)
            && (!Elicits(c) && d.nextRecovery == STABILIZE && (exists x | x in bank :: x.family == RECOVERY_STABILIZE) ==>
                  q.family == RECOVERY_STABILIZE)
            && (!Elicits(c) && d.nextRecovery == NORMAL && (exists x | x in bank :: x.state == d.nextState) ==>
                  q.state == d.nextState)
  {
    hide FsmOf, ScoresOf, FamilyPreference, LadderOf, ProcFires, ToneFires, ToneSupports, Marks, Directives,
         ClosureDirectives, Contextualize, RecoveryOf, FirstInFamilies, FirstFresh;
    if x :| x in bank && x.family == RECOVERY_STABILIZE { assert x in ByFamily(bank, RECOVERY_STABILIZE); }
    if x :| x in bank && x.state == FsmOf(c) { assert x in ByState(bank, FsmOf(c)); }
  }

  /** The first choice of family on a turn that is no answer demand: struggle without overload turns it, nothing else does.
      While the phase holds a question of that family to ask, such a one is asked. */
  lemma FirstChoiceIsAsked(bank: seq<Question>, c: Context, q: Question)
    requires IsBank(bank) && RecoveryOf(c).0 == NORMAL && !Elicits(c)
    requires q in bank && q.state == FsmOf(c) && q.id !in c.carry.recentIds && MeetsAttempt(q, c.signals)
    requires var strained := Struggle(c.signals) > 0.6 && 0.6 * c.signals.confusion + 0.4 * c.signals.hedging <= 0.6;
             q.family == match FsmOf(c)
                         case PLANNING => if strained then STRATEGY_REVISION else GOAL_CLARIFICATION
                         case MONITORING => if strained then SELF_EXPLANATION else MONITORING_CHECK
                         case EVALUATION => if strained then REATTRIBUTION else SELF_EXPLANATION
    ensures var r := Asked(bank, c);
            r.family == q.family && r.state == FsmOf(c) && r.id !in c.carry.recentIds && MeetsAttempt(r, c.signals)
  {
    hide FsmOf, RecoveryOf, ProceduralBlock, HintAbuse, Struggle, SelectQuestion, ByState;
    SelectedIs(bank, c);
    assert q in ByState(bank, FsmOf(c)) && Fresh(q, c.carry.recentIds, c.signals);
    assert !NoneFresh(ByState(bank, FsmOf(c)), q.family, c.carry.recentIds, c.signals);
    SelectionFollowsPreference(bank, FsmOf(c), ScoresOf(c), c.carry.recentIds, c.signals, 0);
  }

  /** The preference for calibration questions under miscalibration never decides what is asked: a turn miscalibrated
      enough is an answer demand without an attempt, whose question the attempt rule replaces. */
  lemma CalibrationPreferenceIsMoot(bank: seq<Question>, c: Context)
    requires IsBank(bank) && ScoresOf(c).miscalibration > 0.5
    ensures Elicits(c) && Asked(bank, c) == SelectAttemptQuestion(bank, c.carry.recentIds)
  {
    hide ProceduralBlock, HintAbuse, Struggle, SelectAttemptQuestion;
  }

  /** Which family heads the list, which closes it, and which are on it at all; never a recovery question. */
  lemma PreferencesIff(state: FsmState, scores: Scores)
    ensures var f := FamilyPreference(state, scores);
            var over := scores.affectLoad > 0.6;
            var mis := !over && scores.miscalibration > 0.5;
            var strained := !over && !mis && scores.struggle > 0.6;
            var calm := !over && !mis && !strained;
            && 2 <= |f| <= 3
            && (|f| == 2 <==> match state case PLANNING => !over case MONITORING => over case EVALUATION => !calm)
            && (f[0] == GOAL_CLARIFICATION <==> state == PLANNING && (over || calm))
            && (f[0] == MONITORING_CHECK <==> state == MONITORING && (over || calm))
            && (f[0] == CALIBRATION <==> state != PLANNING && mis)
            && (f[0] == REATTRIBUTION <==> state == EVALUATION && strained)
            && (f[0] == STRATEGY_REVISION <==> state == PLANNING && (mis || strained))
            && (f[0] == SELF_EXPLANATION <==> (state == MONITORING && strained) || (state == EVALUATION && (over || calm)))
            && (f[|f| - 1] == GOAL_CLARIFICATION <==> state == PLANNING && (mis || strained))
            && (f[|f| - 1] == STRATEGY_REVISION <==> state == PLANNING && (over || calm))
            && (f[|f| - 1] == TRANSFER <==> state == EVALUATION && calm)
            && (f[|f| - 1] == REATTRIBUTION <==> state == EVALUATION && (over || mis))
            && (f[|f| - 1] == CALIBRATION <==> state == MONITORING && calm)
            && (f[|f| - 1] == DISCREPANCY_DETECTION <==> state == MONITORING && strained)
            && (f[|f| - 1] == SELF_EXPLANATION <==> (state == MONITORING && (over || mis)) || (state == EVALUATION && strained))
            && (ATTEMPT_ELICITATION in f <==> state == PLANNING && over)
            && (DISCREPANCY_DETECTION in f <==> state == MONITORING && (mis || strained))
            && (SELF_EXPLANATION in f <==> state == MONITORING || (state == EVALUATION && !mis))
            && (STRATEGY_REVISION in f <==> state == PLANNING || (state == MONITORING && strained))
            && (REATTRIBUTION in f <==> state == EVALUATION)
            && RECOVERY_STABILIZE !in f
  {
  }

  /** Within its family and phase, the question asked is the earliest of the bank that may be. */
  predicate IsEarliest(bank: seq<Question>, state: FsmState, family: Family, recent: seq<string>, signals: UserSignals,
                       k: nat)
    requires k < |bank|
  {
    && bank[k].state == state && bank[k].family == family && Fresh(bank[k], recent, signals)
    && forall j | 0 <= j < k && bank[j].state == state && bank[j].family == family :: !Fresh(bank[j], recent, signals)
  }

  lemma {:induction false} FirstFreshIsEarliest(bank: seq<Question>, state: FsmState, family: Family, recent: seq<string>,
                                                signals: UserSignals) returns (k: nat)
    requires FirstFresh(ByFamily(ByState(bank, state), family), recent, signals).Some?
    ensures k < |bank| && IsEarliest(bank, state, family, recent, signals, k)
    ensures FirstFresh(ByFamily(ByState(bank, state), family), recent, signals).value == bank[k]
  {
    hide Fresh, ByState, ByFamily;
    PoolOfNothing(bank, state, family);
    if bank[0].state == state && bank[0].family == family && Fresh(bank[0], recent, signals) {
      k := 0;
      HeadOfPool(bank, state, family);
    } else {
      RestOfPool(bank, state, family, recent, signals);
      var j := FirstFreshIsEarliest(bank[1..], state, family, recent, signals);
      k := j + 1;
      EarliestShifts(bank, state, family, recent, signals, j);
    }
  }

  lemma EarliestShifts(bank: seq<Question>, state: FsmState, family: Family, recent: seq<string>, signals: UserSignals,
                       j: nat)
    requires j + 1 < |bank| && IsEarliest(bank[1..], state, family, recent, signals, j)
    requires !(bank[0].state == state && bank[0].family == family && Fresh(bank[0], recent, signals))
    ensures IsEarliest(bank, state, family, recent, signals, j + 1)
  {
    hide Fresh;
    forall i | 0 < i < |bank| ensures bank[i] == bank[1..][i - 1] {}
  }

  lemma PoolOfNothing(bank: seq<Question>, state: FsmState, family: Family)
    ensures bank == [] ==> ByFamily(ByState(bank, state), family) == []
  {
  }

  lemma HeadOfPool(bank: seq<Question>, state: FsmState, family: Family)
    requires bank != [] && bank[0].state == state && bank[0].family == family
    ensures var pool := ByFamily(ByState(bank, state), family); pool != [] && pool[0] == bank[0]
  {
    assert ByState(bank, state) == [bank[0]] + ByState(bank[1..], state);
  }

  lemma RestOfPool(bank: seq<Question>, state: FsmState, family: Family, recent: seq<string>, signals: UserSignals)
    requires bank != [] && !(bank[0].state == state && bank[0].family == family && Fresh(bank[0], recent, signals))
    ensures FirstFresh(ByFamily(ByState(bank, state), family), recent, signals)
         == FirstFresh(ByFamily(ByState(bank[1..], state), family), recent, signals)
  {
    hide Fresh;
    if bank[0].state == state {
      assert ByState(bank, state)[1..] == ByState(bank[1..], state);
      var pool := ByFamily(ByState(bank, state), family);
      if bank[0].family == family { assert pool[1..] == ByFamily(ByState(bank[1..], state), family); }
    }
  }

  /** So a turn that asks from its preferred families asks the earliest such question. */
  lemma {:induction false} PreferredIsEarliest(bank: seq<Question>, state: FsmState, families: seq<Family>,
                                               recent: seq<string>, signals: UserSignals) returns (k: nat)
    requires FirstInFamilies(ByState(bank, state), families, recent, signals).Some?
    ensures k < |bank| && bank[k] == FirstInFamilies(ByState(bank, state), families, recent, signals).value
    ensures bank[k].family in families && IsEarliest(bank, state, bank[k].family, recent, signals, k)
    decreases |families|
  {
    hide Fresh, IsEarliest, FirstFresh, ByState;
    if FirstFresh(ByFamily(ByState(bank, state), families[0]), recent, signals).Some? {
      k := FirstFreshIsEarliest(bank, state, families[0], recent, signals);
      EarliestHas(bank, state, families[0], recent, signals, k);
    } else {
      k := PreferredIsEarliest(bank, state, families[1..], recent, signals);
    }
  }

  lemma EarliestHas(bank: seq<Question>, state: FsmState, family: Family, recent: seq<string>, signals: UserSignals, k: nat)
    requires k < |bank| && IsEarliest(bank, state, family, recent, signals, k)
    ensures bank[k].family == family
  {
  }

  // ----- the plan -----

  /** Every field of the plan but its directives, after all rules, and whether closure is offered: the cooldown decides whether the tone is touched, load
      comes before confidence, and the hand-off replaces the text, not the question. */
  lemma PlanIff(bank: seq<Question>, c: Context)
    requires IsBank(bank)
    ensures var (d, q, s) := (Decide(bank, c), Asked(bank, c), c.signals);
            var handsOff := ProceduralStuck(c.window, s) && c.carry.sinceProc >= 2;
            var mayTone := c.carry.sinceMeta >= 2;
            && d.plan.questionId == q.id && d.plan.mustAskQuestion
            && d.plan.questionText == (if handsOff then "[procedural_unblock: redirect to goal]"
                                       else Contextualize(q.variants[0], c.activity))
            && d.plan.tone == (if mayTone && 0.6 * s.confusion + 0.4 * s.hedging > 0.6 then Supportive
                               else if mayTone && Elicits(c) && s.hedging < 0.1 then Challenging
                               else q.tone)
            && (d.plan.mustElicitAttempt <==> Elicits(c) && !handsOff)
            && (d.plan.forbidDirectAnswer <==> !handsOff && d.nextHint != BOTTOM_OUT)
            && (d.closureEligible <==> c.turnCount >= 4 && d.nextState != PLANNING && d.nextRecovery == NORMAL)
  {
    hide Asked, Contextualize, Marks, Directives, ClosureDirectives, FsmOf, LadderOf, ProceduralStuck, ToneChallenges,
         ToneSupports, ProcFires, RecoveryOf, Elicits, ScoresOf;
    ChallengesOnlyDemands(c);
    HandOffIff(c);
  }

  /** What a turn reports, in order: the ladder always, every other rule exactly when its occasion is there. */
  lemma AppliedInOrder(bank: seq<Question>, c: Context)
    requires IsBank(bank)
    ensures var (d, s) := (Decide(bank, c), c.signals);
            d.applied ==
            When(s.directAnswerRequest && !s.attemptPresent, ElicitAttemptFired)
            + When(c.asksForAnswer, NoDirectAnswersFired) + [HintLadderFired(d.nextHint)]
            + When(c.carry.sinceMeta >= 2
                   && (0.6 * s.confusion + 0.4 * s.hedging > 0.6
                       || (s.directAnswerRequest && !s.attemptPresent && s.hedging < 0.1)), ToneByConfidenceFired)
            + When(ProceduralStuck(c.window, s) && c.carry.sinceProc >= 2, ProceduralUnblockFired)
  {
    hide Asked, Contextualize, Marks, Directives, ClosureDirectives, FsmOf, LadderOf, ProceduralStuck, ToneChallenges,
         ToneSupports, ProcFires, RecoveryOf, ScoresOf, PlanAfter, When;
    ChallengesOnlyDemands(c);
    HandOffIff(c);
    AllMarks(c);
  }

  // ----- the topic of a question -----

  lemma TopicStarts(s: string, i: nat)
    ensures OccursAt(s, TOPIC, i) ==> i < |s| && s[i] == '{'
  {
    if OccursAt(s, TOPIC, i) { assert s[i..i + |TOPIC|][0] == s[i]; }
  }

  lemma {:induction false} ReplaceAbsent(s: string, sub: string)
    requires '{' !in s
    ensures ReplaceAll(s, TOPIC, sub) == s
  {
    if s != "" {
      TopicStarts(s, 0);
      assert s[0] in s && forall c | c in s[1..] :: c in s;
      ReplaceAbsent(s[1..], sub);
    }
  }

  lemma {:induction false} ReplaceHere(a: string, b: string, sub: string)
    requires '{' !in a && '{' !in b
    ensures ReplaceAll(a + TOPIC + b, TOPIC, sub) == a + sub + b
  {
    hide OccursAt;
    var s := a + TOPIC + b;
    if a == "" {
      StartsTopic(b);
      assert s == TOPIC + b && a + sub + b == sub + b;
      ReplaceAbsent(b, sub);
    } else {
      TopicStarts(s, 0);
      assert s[0] == a[0] && a[0] in a;
      assert s[1..] == a[1..] + TOPIC + b && forall c | c in a[1..] :: c in a;
      ReplaceHere(a[1..], b, sub);
      assert [a[0]] + (a[1..] + sub + b) == a + sub + b;
    }
  }

  lemma StartsTopic(b: string)
    ensures OccursAt(TOPIC + b, TOPIC, 0) && (TOPIC + b)[|TOPIC|..] == b
  {
  }

  /** A question's topic is the activity's stripped title, or a stock phrase when there is none; a question without a topic
      is asked as it stands. */
  lemma ContextualizeFills(a: string, b: string, activity: Option<ActivityRef>)
    requires '{' !in a && '{' !in b
    ensures Contextualize(a, activity) == a
    ensures Contextualize(a + "{topic}" + b, activity) ==
            a + (if activity.None? || AllSpace(activity.value.title) then "este tema" else Strip(activity.value.title)) + b
  {
    forall i: nat | i <= |a| ensures !OccursAt(a, TOPIC, i) { TopicStarts(a, i); }
    var s := a + TOPIC + b;
    assert s[|a|..|a| + |TOPIC|] == TOPIC;
    assert OccursAt(s, TOPIC, |a|) && Contains(s, TOPIC);
    if activity.Some? { StripEnds(activity.value.title); }
    hide ReplaceAll, Strip;
    ReplaceHere(a, b, FALLBACK_TOPIC);
    if activity.Some? { ReplaceHere(a, b, Strip(activity.value.title)); }
  }
}
