/** How long closure can be withheld (engine.py closure gate, recovery.py, fsm.py). */
module ClosureLiveness {
  import opened Text
  import opened PolicyTypes
  import opened PolicyAutomata
  import opened Questions
  import opened Engine
  import opened PolicyRuns
  import opened SteadyRuns

  /** The phases follow each other in order on every run: monitoring is never skipped, evaluation is not reached before
      the fourth turn, planning comes back only from evaluation, and nothing moves while recovering; outside recovery no
      phase outlasts its turn limit. */
  lemma PhasesInOrder(bank: seq<Question>, h: seq<Context>, i: nat)
    requires IsBank(bank) && Run(bank, h) && i < |h|
    ensures var (prev, next) := (End(bank, h[..i]).fsm, FsmOf(h[i]));
            && (next != prev ==>
                  && RecoveryOf(h[i]).0 == NORMAL
                  && next == (match prev case PLANNING => MONITORING case MONITORING => EVALUATION case EVALUATION => PLANNING)
                  && (prev == PLANNING ==> h[i].turnCount >= 2) && (prev == MONITORING ==> h[i].turnCount >= 4))
            && (next == prev && RecoveryOf(h[i]).0 == NORMAL ==>
                  h[i].turnCount < (match prev case PLANNING => 2 case MONITORING => 6 case EVALUATION => 10))
  {
    hide Run, End, RecoveryOf, ScoresOf;
    RunStep(bank, h, i);
  }

  /** How many more turns past the minimum can go without closure, by where the session stands. */
  function Budget(e: Carry): int {
    var reserve := if e.fsm == EVALUATION then 4 else 0;
    if e.recovery == STABILIZE then reserve + 3 - e.turnsInRecovery else reserve + 3
  }

  predicate Settled(e: Carry) {
    if e.recovery == STABILIZE then 1 <= e.turnsInRecovery < MAX_RECOVERY_TURNS else e.turnsInRecovery == 0
  }

  lemma BudgetShrinks(bank: seq<Question>, c: Context)
    requires IsBank(bank) && Settled(c.carry) && c.turnCount >= CLOSURE_MIN_TURNS
    ensures Settled(After(bank, c))
    ensures 0 <= Budget(c.carry) <= 7
    ensures !ClosureEligible(c) ==> Budget(After(bank, c)) < Budget(c.carry)
  {
    hide After, ScoresOf, HighAffectCount;
    AfterFields(bank, c);
  }

  predicate Withheld(h: seq<Context>, a: nat, b: nat)
    requires a <= b <= |h|
  {
    forall i | a <= i < b :: h[i].turnCount >= CLOSURE_MIN_TURNS && !ClosureEligible(h[i])
  }

  lemma {:induction false} WithheldSpendsBudget(bank: seq<Question>, h: seq<Context>, a: nat, b: nat)
    requires IsBank(bank) && Run(bank, h) && a < b <= |h| && Withheld(h, a, b)
    ensures Settled(End(bank, h[..b])) && Budget(End(bank, h[..b])) + (b - a) <= Budget(End(bank, h[..a]))
    ensures 0 <= Budget(End(bank, h[..b])) && Budget(End(bank, h[..a])) <= 7
    decreases b
  {
    hide Run, End, After, ClosureEligible, Budget;
    RunStep(bank, h, b - 1);
    RecoveryInvariant(bank, h[..b - 1]);
    BudgetShrinks(bank, h[b - 1]);
    BudgetBound(After(bank, h[b - 1]));
    if a < b - 1 { WithheldSpendsBudget(bank, h, a, b - 1); }
  }

  lemma BudgetBound(e: Carry)
    requires Settled(e)
    ensures 0 <= Budget(e) <= 7
  {
  }

  /** Among any eight consecutive turns past the minimum, whatever the signals, one offers closure. */
  lemma ClosureWithinEight(bank: seq<Question>, h: seq<Context>, a: nat)
    requires IsBank(bank) && Run(bank, h) && a + 8 <= |h|
    requires forall i | a <= i < a + 8 :: h[i].turnCount >= 4
    ensures exists i | a <= i < a + 8 :: Decide(bank, h[i]).closureEligible
  {
    hide Run, ClosureEligible, PlanAfter, Marks, ScoresOf, LadderOf, RecoveryOf, FsmOf, End;
    if Withheld(h, a, a + 8) {
      WithheldSpendsBudget(bank, h, a, a + 8);
    } else {
      var i :| a <= i < a + 8 && !(h[i].turnCount >= CLOSURE_MIN_TURNS && !ClosureEligible(h[i]));
      assert Decide(bank, h[i]).closureEligible;
    }
  }

  // ----- eight is tight -----

  /** FSM state, recovery and turns in recovery of an overwhelmed student before turn n. */
  function Course(n: nat): (FsmState, Recovery, nat) {
    if n <= 2 then (PLANNING, NORMAL, 0)
    else if n <= 5 then (PLANNING, STABILIZE, n - 2)
    else if n == 6 then (MONITORING, NORMAL, 0)
    else if n <= 9 then (MONITORING, STABILIZE, n - 6)
    else if n == 10 then (EVALUATION, NORMAL, 0)
    else if n <= 13 then (EVALUATION, STABILIZE, n - 10)
    else if n == 14 then (PLANNING, NORMAL, 0)
    else (PLANNING, STABILIZE, n - 14)
  }

  lemma {:induction false} RepeatedAffect(n: nat)
    ensures HighAffectCount(Repeated(OVERWHELMED, n)) == n
  {
    if n > 0 { RepeatedAffect(n - 1); }
  }

  lemma CourseStep(e: Carry, n: nat)
    requires n < 17 && (e.fsm, e.recovery, e.turnsInRecovery) == Course(n)
    ensures var c := SteadyTurn(OVERWHELMED, e, n);
            && (FsmOf(c), RecoveryOf(c).0, RecoveryOf(c).1) == Course(n + 1)
            && (10 <= n ==> !ClosureEligible(c))
  {
    hide ComputeScores, HighAffectCount, Repeated;
    RepeatedAffect(Min(n, 10));
    OverwhelmedAffect(Repeated(OVERWHELMED, Min(n, 10)));
  }

  lemma {:induction false} OverwhelmedFollowsCourse(bank: seq<Question>, n: nat)
    requires IsBank(bank) && n <= 17
    ensures var e := Before(bank, OVERWHELMED, n); (e.fsm, e.recovery, e.turnsInRecovery) == Course(n)
  {
    hide After, Course, FsmOf, RecoveryOf, SteadyTurn, Before, IsBank, Run, Steady;
    SteadyIsRun(bank, OVERWHELMED, n);
    if n == 0 {
      CourseStarts();
    } else {
      OverwhelmedFollowsCourse(bank, n - 1);
      var e := Before(bank, OVERWHELMED, n - 1);
      CourseStep(e, n - 1);
      AfterFields(bank, SteadyTurn(OVERWHELMED, e, n - 1));
    }
  }

  lemma CourseStarts()
    ensures Course(0) == (PLANNING, NORMAL, 0)
  {
  }

  /** Seven turns in a row past the minimum can go without closure, on any bank. */
  lemma SevenTurnsWithoutClosure(bank: seq<Question>)
    requires IsBank(bank)
    ensures var h := Steady(bank, OVERWHELMED, 17);
            Run(bank, h) && forall i | 10 <= i < 10 + 7 ::
              h[i].turnCount >= CLOSURE_MIN_TURNS && !Decide(bank, h[i]).closureEligible
  {
    hide Run, Course, PlanAfter, Marks, ScoresOf, LadderOf, RecoveryOf, FsmOf, Steady, Before, SteadyTurn, ClosureEligible;
    var h := Steady(bank, OVERWHELMED, 17);
    SteadyIsRun(bank, OVERWHELMED, 17);
    forall i | 10 <= i < 17 ensures h[i].turnCount >= CLOSURE_MIN_TURNS && !Decide(bank, h[i]).closureEligible {
      SteadyAt(bank, OVERWHELMED, 17, i);
      TurnIs(OVERWHELMED, Before(bank, OVERWHELMED, i), i);
      OverwhelmedFollowsCourse(bank, i);
      CourseStep(Before(bank, OVERWHELMED, i), i);
    }
  }
}
