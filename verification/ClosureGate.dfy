/** When a turn finalizes the session: the decision's closure gate against the check made after the reply
    (engine.py, session.py). */
module ClosureGate {
  import opened Text
  import opened PolicyTypes
  import opened PolicyAutomata
  import opened Questions
  import opened Engine
  import TurnStream

  /** The session row is finalized and the connection closed after the reply. */
  predicate Finalizes(d: Decision, turnCount: nat, reply: string) {
    TurnStream.MarkerNoticed(d.closureEligible, reply) && turnCount >= CLOSURE_MIN_TURNS
  }

  /** On an eligible turn every noticed marker finalizes, so the farewell is never spoken in vain. On the other turns the
      check looks at the turn count alone: a marker in the tail of the reply finalizes the session during recovery and
      planning too, although closure was not offered. */
  lemma FinalizesIff(bank: seq<Question>, c: Context, reply: string)
    requires IsBank(bank)
    ensures var d := Decide(bank, c);
            && (d.closureEligible ==>
                  (Finalizes(d, c.turnCount, reply) <==> Contains(reply, TurnStream.CLOSURE_SENTINEL)))
            && (!d.closureEligible ==>
                  (Finalizes(d, c.turnCount, reply)
                   <==> TurnStream.Captured(reply) && c.turnCount >= 4
                        && (d.nextState == PLANNING || d.nextRecovery == STABILIZE)))
  {
    hide FsmOf, RecoveryOf, PlanAfter, Marks, ScoresOf, LadderOf, Contains, TurnStream.Captured, ToneFires, ProcFires,
         ClosureDirectives;
  }

  /** An eligible turn that finalizes shows the farewell and nothing the model wrote; any other keeps the reply. */
  lemma FinalizingTurnShowsFarewell(bank: seq<Question>, c: Context, reply: string, plan: TurnStream.Plan)
    requires IsBank(bank) && Decide(bank, c).closureEligible
    ensures var d := Decide(bank, c);
            var wire := TurnStream.WireText(true, plan, reply);
            if Finalizes(d, c.turnCount, reply) then wire == TurnStream.CLOSURE_FAREWELL else reply <= wire
  {
    hide Decide, Contains, TurnStream.Correction;
    FinalizesIff(bank, c, reply);
  }
}
