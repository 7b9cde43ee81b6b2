/** Scores and the four per-turn automata (scores.py, recovery.py, fsm.py, hint_ladder.py, cooldown.py). */
module PolicyAutomata {
  import opened PolicyTypes

  // ----- scores -----

  const HINT_ABUSE_WINDOW := 3
  const PROCEDURAL_BLOCK_WINDOW := 4

  function Clamp01(x: real): real {
    if x < 0.0 then 0.0 else if x > 1.0 then 1.0 else x
  }

  /** The last `n` elements. */
  function LastN<T>(s: seq<T>, n: nat): (r: seq<T>)
    ensures |r| == if |s| <= n then |s| else n
    ensures r == s[|s| - |r|..]
  {
    if |s| <= n then s else s[|s| - n..]
  }

  function CountProcedural(s: seq<UserSignals>): (n: nat)
    ensures n <= |s|
  {
    if s == [] then 0 else CountProcedural(s[1..]) + if s[0].proceduralRequest then 1 else 0
  }

  function CountDirect(s: seq<UserSignals>): (n: nat)
    ensures n <= |s|
  {
    if s == [] then 0 else CountDirect(s[1..]) + if s[0].directAnswerRequest then 1 else 0
  }

  predicate PriorAttempt(window: seq<UserSignals>) {
    exists i | 0 <= i < |window| :: window[i].attemptPresent
  }

  /** The turns the procedural score looks at: at most three earlier ones and the current one. */
  function ProceduralTurns(window: seq<UserSignals>, current: UserSignals): (r: seq<UserSignals>)
    ensures 1 <= |r| <= PROCEDURAL_BLOCK_WINDOW
  {
    LastN(window, PROCEDURAL_BLOCK_WINDOW - 1) + [current]
  }

  function Struggle(current: UserSignals): real {
    var slow := if current.latencyZ > 0.0 then Clamp01(current.latencyZ / 2.0) else 0.0;
    var short := if current.lengthZ <= -1.0 then 1.0 else 0.0;
    Clamp01(0.35 * current.hedging + 0.25 * current.confusion + 0.20 * slow + 0.20 * short)
  }

  function Miscalibration(current: UserSignals): real {
    if current.hedging < 0.1 && current.directAnswerRequest && !current.attemptPresent then 1.0
    else if current.hedging < 0.1 && current.directAnswerRequest then 0.5
    else 0.0
  }

  function HintAbuse(window: seq<UserSignals>, current: UserSignals): real {
    var asks := CountDirect(LastN(window, HINT_ABUSE_WINDOW - 1) + [current]);
    if asks < 2 then 0.0 else Clamp01(asks as real / HINT_ABUSE_WINDOW as real)
  }

  function AffectLoad(s: UserSignals): real {
    Clamp01(0.6 * s.confusion + 0.4 * s.hedging)
  }

  function ProceduralBlock(window: seq<UserSignals>, current: UserSignals): real {
    var recent := ProceduralTurns(window, current);
    var procRate := CountProcedural(recent) as real / |recent| as real;
    var darRate := CountDirect(recent) as real / |recent| as real;
    Clamp01((if PriorAttempt(window) then 1.0 else 0.3) * (0.7 * procRate + 0.3 * darRate))
  }

  function ComputeScores(window: seq<UserSignals>, current: UserSignals): Scores {
    Scores(
      Struggle(current),
      Miscalibration(current),
      HintAbuse(window, current),
      if current.latencyZ > 1.0 && current.lengthZ < -0.5 && !current.directAnswerRequest then 1.0 else 0.0,
      AffectLoad(current),
      ProceduralBlock(window, current))
  }

  const FIRE_THRESHOLD := 0.45

  /** In whole numbers: the procedural score crosses the firing threshold. */
  predicate ProceduralStuck(window: seq<UserSignals>, current: UserSignals) {
    var recent := ProceduralTurns(window, current);
    PriorAttempt(window) && 14 * CountProcedural(recent) + 6 * CountDirect(recent) > 9 * |recent|
  }

  lemma ProceduralBlockIff(window: seq<UserSignals>, current: UserSignals)
    ensures ProceduralBlock(window, current) > FIRE_THRESHOLD <==> ProceduralStuck(window, current)
  {
    var recent := ProceduralTurns(window, current);
    var p, d, n := CountProcedural(recent), CountDirect(recent), |recent|;
    RateIff(p, d, n);
  }

  lemma RateIff(p: nat, d: nat, n: nat)
    requires p <= n && d <= n && 1 <= n <= PROCEDURAL_BLOCK_WINDOW
    ensures 0.7 * (p as real / n as real) + 0.3 * (d as real / n as real) > FIRE_THRESHOLD <==> 14 * p + 6 * d > 9 * n
    ensures 0.0 <= 0.7 * (p as real / n as real) + 0.3 * (d as real / n as real) <= 1.0
  {
  }

  /** Crossing the threshold takes an earlier attempt, a procedural request and a second request of either kind. */
  lemma ProceduralStuckNeeds(window: seq<UserSignals>, current: UserSignals)
    requires ProceduralStuck(window, current)
    ensures window != [] && PriorAttempt(window)
    ensures CountProcedural(ProceduralTurns(window, current)) >= 1
    ensures CountProcedural(ProceduralTurns(window, current)) + CountDirect(ProceduralTurns(window, current)) >= 2
  {
  }

  /** With four turns in view "two of the last four" is not enough: it takes three requests in all, or two and two. */
  lemma ProceduralStuckOverFourTurns(window: seq<UserSignals>, current: UserSignals)
    requires |window| >= 3
    ensures var p, d := CountProcedural(ProceduralTurns(window, current)), CountDirect(ProceduralTurns(window, current));
            ProceduralStuck(window, current) <==>
            PriorAttempt(window) && (p >= 3 || (p == 2 && d >= 2) || (p == 1 && d == 4))
  {
  }

  /** So two procedural requests in the last four turns leave the rule silent, unlike "roughly 2 of the last 4". */
  lemma TwoOfFourDoNotFire(window: seq<UserSignals>, current: UserSignals)
    requires |window| >= 3
    requires CountProcedural(ProceduralTurns(window, current)) == 2 && CountDirect(ProceduralTurns(window, current)) <= 1
    ensures ProceduralBlock(window, current) <= FIRE_THRESHOLD
  {
    hide ProceduralBlock, ProceduralStuck, ProceduralTurns, PriorAttempt;
    ProceduralStuckOverFourTurns(window, current);
    ProceduralBlockIff(window, current);
  }

  /** Of hedging, confusion, a slow and a short answer. */
  function Cues(s: UserSignals): nat {
    (if s.hedging > 0.0 then 1 else 0) + (if s.confusion > 0.0 then 1 else 0) + (if s.latencyZ > 0.0 then 1 else 0)
    + if s.lengthZ <= -1.0 then 1 else 0
  }

  /** No two cues alone, however strong, amount to the struggle that climbs the ladder. */
  lemma HighStruggleNeedsThreeCues(current: UserSignals)
    ensures Struggle(current) > STRUGGLE_HIGH ==> Cues(current) >= 3
  {
  }

  // ----- recovery micro-state -----

  const MIN_AFFECT_TURNS_IN_WINDOW := 2
  const MAX_RECOVERY_TURNS := 4

  function HighAffectCount(window: seq<UserSignals>): nat {
    if window == [] then 0
    else HighAffectCount(window[1..]) + if 0.6 * window[0].confusion + 0.4 * window[0].hedging > 0.4 then 1 else 0
  }

  function NextRecovery(current: Recovery, turnsInRecovery: nat, scores: Scores, signals: UserSignals,
                        window: seq<UserSignals>): (Recovery, nat)
  {
    if current == STABILIZE then
      if turnsInRecovery + 1 >= MAX_RECOVERY_TURNS then (NORMAL, 0)
      else if scores.affectLoad < 0.3 && signals.confusion < 0.2 then (NORMAL, 0)
      else (STABILIZE, turnsInRecovery + 1)
    else if scores.affectLoad <= 0.4 then (NORMAL, 0)
    else if signals.confusion <= 0.4 then (NORMAL, 0)
    else if HighAffectCount(window) < MIN_AFFECT_TURNS_IN_WINDOW then (NORMAL, 0)
    else (STABILIZE, 1)
  }

  predicate HighAffect(s: UserSignals) {
    0.6 * s.confusion + 0.4 * s.hedging > 0.4
  }

  lemma {:induction false} TwoHighIff(window: seq<UserSignals>)
    ensures HighAffectCount(window) >= 1 <==> exists i | 0 <= i < |window| :: HighAffect(window[i])
    ensures HighAffectCount(window) >= 2 <==>
            exists i, j | 0 <= i < j < |window| :: HighAffect(window[i]) && HighAffect(window[j])
  {
    if window != [] {
      var rest := window[1..];
      TwoHighIff(rest);
      if i :| 0 <= i < |rest| && HighAffect(rest[i]) { assert HighAffect(window[i + 1]); }
      if i, j :| 0 <= i < j < |rest| && HighAffect(rest[i]) && HighAffect(rest[j]) {
        assert HighAffect(window[i + 1]) && HighAffect(window[j + 1]);
      }
    }
  }

  /** What the signals say about recovering: want of calm, at most three turns, or a confused and loaded turn after two
      loaded ones in the window. */
  predicate Overwhelms(current: Recovery, turnsInRecovery: nat, s: UserSignals, window: seq<UserSignals>) {
    if current == STABILIZE
    then turnsInRecovery < 3 && (AffectLoad(s) >= 0.3 || s.confusion >= 0.2)
    else HighAffect(s) && s.confusion > 0.4
         && exists i, j | 0 <= i < j < |window| :: HighAffect(window[i]) && HighAffect(window[j])
  }

  /** When a turn recovers, in terms of the signals. */
  lemma RecoveringIff(current: Recovery, turnsInRecovery: nat, s: UserSignals, window: seq<UserSignals>)
    ensures NextRecovery(current, turnsInRecovery, ComputeScores(window, s), s, window).0 == STABILIZE
       <==> Overwhelms(current, turnsInRecovery, s, window)
  {
    hide ProceduralBlock, HintAbuse, Struggle, Miscalibration, HighAffectCount;
    TwoHighIff(window);
  }

  // ----- FSM -----

  const PLANNING_TO_MONITORING_TURN := 2
  const MONITORING_TO_EVALUATION_TURN := 6
  const EVALUATION_RESET_TURN := 10
  const CLEAR_THRESHOLD := 0.3
  const OVERLOAD_THRESHOLD := 0.7
  const MIN_TURNS_BEFORE_ACCEL := 4

  function Transition(state: FsmState, turn: nat, scores: Scores, signals: UserSignals): FsmState {
    match state
    case PLANNING => if turn >= PLANNING_TO_MONITORING_TURN then MONITORING else PLANNING
    case MONITORING =>
      if turn >= MONITORING_TO_EVALUATION_TURN then EVALUATION
      else if && turn >= MIN_TURNS_BEFORE_ACCEL && signals.attemptPresent
              && scores.miscalibration < CLEAR_THRESHOLD && scores.struggle < CLEAR_THRESHOLD
              && scores.affectLoad < CLEAR_THRESHOLD then EVALUATION
      else MONITORING
    case EVALUATION =>
      if turn >= EVALUATION_RESET_TURN then PLANNING
      else if scores.struggle > OVERLOAD_THRESHOLD || scores.affectLoad > OVERLOAD_THRESHOLD then PLANNING
      else EVALUATION
  }

  // ----- hint ladder -----

  const STRUGGLE_HIGH := 0.6
  const STRUGGLE_LOW := 0.3
  const LOW_STRUGGLE_RESET := 2
  const MIN_TURNS_AT_FOCUSED := 3

  /** Next rung, turns at that rung, low-struggle streak. */
  function NextStep(current: Rung, turnsInState: nat, lowStreak: nat, scores: Scores, signals: UserSignals,
                    recovery: Recovery): (Rung, nat, nat)
  {
    if recovery == STABILIZE then
      (current, turnsInState + 1, if scores.struggle < STRUGGLE_LOW then lowStreak + 1 else 0)
    else if scores.struggle < STRUGGLE_LOW then
      if lowStreak + 1 >= LOW_STRUGGLE_RESET && current != PROCESS_FEEDBACK then (PROCESS_FEEDBACK, 0, lowStreak + 1)
      else (current, turnsInState + 1, lowStreak + 1)
    else if !(scores.struggle > STRUGGLE_HIGH && signals.attemptPresent) then (current, turnsInState + 1, 0)
    else match current
      case PROCESS_FEEDBACK => (STRATEGIC_HINT, 0, 0)
      case STRATEGIC_HINT => (FOCUSED_HINT, 0, 0)
      case FOCUSED_HINT =>
        if turnsInState >= MIN_TURNS_AT_FOCUSED then (BOTTOM_OUT, 0, 0) else (FOCUSED_HINT, turnsInState + 1, 0)
      case BOTTOM_OUT => (BOTTOM_OUT, turnsInState + 1, 0)
  }

  // ----- cooldown -----

  const COOLDOWN_TURNS := 2
  const COOLDOWN_CAP := 999

  predicate AllowsIntervention(counter: nat) {
    counter >= COOLDOWN_TURNS
  }

  function CooldownNext(counter: nat, fired: bool): nat {
    if fired then 0 else if counter + 1 < COOLDOWN_CAP then counter + 1 else COOLDOWN_CAP
  }
}
