/** Whole runs of the per-turn policy: committed turns from a fresh session, each starting where the last one ended
    (engine.py, session.py). The windows are arbitrary, so turns abandoned in between are covered. */
module PolicyRuns {
  import opened Text
  import opened PolicyTypes
  import opened PolicyAutomata
  import opened Questions
  import opened Engine

  /** What a committed turn leaves for the next one. */
  function After(bank: seq<Question>, c: Context): Carry
    requires IsBank(bank)
  {
    var d := Decide(bank, c);
    Carry(d.nextState, c.carry.recentIds + [d.plan.questionId], d.nextHint, d.nextTurnsInHint, d.nextLowStreak,
          d.nextRecovery, d.nextTurnsInRecovery, d.nextSinceMeta, d.nextSinceProc)
  }

  function End(bank: seq<Question>, h: seq<Context>): Carry
    requires IsBank(bank)
  {
    if h == [] then FRESH else After(bank, h[|h| - 1])
  }

  predicate Run(bank: seq<Question>, h: seq<Context>)
    requires IsBank(bank)
    decreases |h|
  {
    h == [] || (Run(bank, h[..|h| - 1]) && h[|h| - 1].carry == End(bank, h[..|h| - 1]))
  }

  lemma {:induction false} RunPrefix(bank: seq<Question>, h: seq<Context>, i: nat)
    requires IsBank(bank) && Run(bank, h) && i <= |h|
    ensures Run(bank, h[..i])
    ensures i < |h| ==> h[i].carry == End(bank, h[..i])
    decreases |h|
  {
    hide End;
    if i == |h| {
      assert h[..i] == h;
    } else if i < |h| - 1 {
      RunPrefix(bank, h[..|h| - 1], i);
      assert h[..|h| - 1][..i] == h[..i];
    }
  }

  lemma AfterFields(bank: seq<Question>, c: Context)
    requires IsBank(bank)
    ensures var e := After(bank, c);
            && e.fsm == FsmOf(c) && e.recentIds == c.carry.recentIds + [Asked(bank, c).id]
            && (e.hint, e.turnsInHint, e.lowStreak) == LadderOf(c)
            && (e.recovery, e.turnsInRecovery) == RecoveryOf(c)
            && e.sinceMeta == CooldownNext(c.carry.sinceMeta, ToneFires(c))
            && e.sinceProc == CooldownNext(c.carry.sinceProc, ProcFires(c))
  {
    hide FsmOf, Asked, LadderOf, RecoveryOf, ToneFires, ProcFires, Marks, ClosureEligible, Contextualize, Directives,
         ClosureDirectives, Selected, CooldownNext;
  }

  /** Turn i starts where the turns before it ended, and leaves what it decided. */
  lemma RunStep(bank: seq<Question>, h: seq<Context>, i: nat)
    requires IsBank(bank) && Run(bank, h) && i < |h|
    ensures Run(bank, h[..i]) && h[i].carry == End(bank, h[..i])
    ensures End(bank, h[..i + 1]) == After(bank, h[i])
  {
    hide After, Run;
    RunPrefix(bank, h, i);
    assert h[..i + 1][i] == h[i];
  }

  lemma RunGrows(bank: seq<Question>, h: seq<Context>, c: Context)
    requires IsBank(bank) && Run(bank, h) && c.carry == End(bank, h)
    ensures Run(bank, h + [c]) && End(bank, h + [c]) == After(bank, c)
  {
    hide After;
    assert (h + [c])[..|h|] == h;
  }

  // ----- counters against history -----

  /** What an observer can see of one turn. */
  datatype Sign = Recovering | LowStruggle | SameRung | ToneShift | HandOff

  predicate Shows(s: Sign, c: Context) {
    match s
    case Recovering => RecoveryOf(c).0 == STABILIZE
    case LowStruggle => ScoresOf(c).struggle < STRUGGLE_LOW
    case SameRung => LadderOf(c).0 == c.carry.hint
    case ToneShift => ToneFires(c)
    case HandOff => ProcFires(c)
  }

  /** Length of the run of turns showing `s` that the history ends with. */
  function Streak(s: Sign, h: seq<Context>): (n: nat)
    ensures n <= |h|
    decreases |h|
  {
    if h == [] || !Shows(s, h[|h| - 1]) then 0 else 1 + Streak(s, h[..|h| - 1])
  }

  /** How many turns ago `s` was last shown. */
  function Since(s: Sign, h: seq<Context>): Option<nat>
    decreases |h|
  {
    if h == [] then None
    else if Shows(s, h[|h| - 1]) then Some(0)
    else match Since(s, h[..|h| - 1]) case None => None case Some(k) => Some(k + 1)
  }

  function Times(s: Sign, h: seq<Context>): nat
    decreases |h|
  {
    if h == [] then 0 else Times(s, h[..|h| - 1]) + if Shows(s, h[|h| - 1]) then 1 else 0
  }

  function Min(a: nat, b: nat): nat {
    if a < b then a else b
  }

  /** A cooldown counter: turns since the last firing, capped; 99 stands for the past of a fresh session. */
  function Cooldown(s: Sign, h: seq<Context>): nat {
    match Since(s, h) case None => Min(99 + |h|, 999) case Some(k) => Min(k, 999)
  }

  /** Every carried counter is a function of the history alone. */
  lemma {:induction false} CountersAreHistory(bank: seq<Question>, h: seq<Context>)
    requires IsBank(bank) && Run(bank, h)
    ensures var e := End(bank, h);
            && e.turnsInRecovery == Streak(Recovering, h)
            && e.lowStreak == Streak(LowStruggle, h)
            && e.turnsInHint == Streak(SameRung, h)
            && e.sinceMeta == Cooldown(ToneShift, h)
            && e.sinceProc == Cooldown(HandOff, h)
    decreases |h|
  {
    hide After, ComputeScores, ToneFires, ProcFires, FsmOf, Asked, ScoresOf;
    if h != [] {
      var c := h[|h| - 1];
      CountersAreHistory(bank, h[..|h| - 1]);
      AfterFields(bank, c);
      LadderCounters(c);
      RecoveryInvariant(bank, h[..|h| - 1]);
      RecoveryCounter(c);
      CooldownStep(ToneShift, h);
      CooldownStep(HandOff, h);
    }
  }

  lemma LadderCounters(c: Context)
    ensures LadderOf(c).1 == if Shows(SameRung, c) then c.carry.turnsInHint + 1 else 0
    ensures LadderOf(c).2 == if Shows(LowStruggle, c) then c.carry.lowStreak + 1 else 0
  {
    hide ScoresOf, RecoveryOf;
  }

  lemma RecoveryCounter(c: Context)
    requires c.carry.recovery == NORMAL ==> c.carry.turnsInRecovery == 0
    ensures RecoveryOf(c).1 == if Shows(Recovering, c) then c.carry.turnsInRecovery + 1 else 0
  {
    hide ScoresOf, HighAffectCount;
  }

  lemma CooldownStep(s: Sign, h: seq<Context>)
    requires h != []
    ensures Cooldown(s, h) == CooldownNext(Cooldown(s, h[..|h| - 1]), Shows(s, h[|h| - 1]))
  {
    hide Shows;
  }

  /** Recovery lasts at most three decisions. */
  lemma RecoveryInvariant(bank: seq<Question>, h: seq<Context>)
    requires IsBank(bank) && Run(bank, h)
    ensures var e := End(bank, h);
            if e.recovery == STABILIZE then 1 <= e.turnsInRecovery < MAX_RECOVERY_TURNS else e.turnsInRecovery == 0
  {
    hide After, ScoresOf, HighAffectCount;
    if h != [] {
      AfterFields(bank, h[|h| - 1]);
    }
  }

  // ----- how often a rule may fire -----

  predicate Spaced(s: Sign, h: seq<Context>) {
    forall i, j | 0 <= i < j < |h| && Shows(s, h[i]) && Shows(s, h[j]) :: i + 3 <= j
  }

  lemma {:induction false} SinceBound(s: Sign, h: seq<Context>, i: nat)
    requires i < |h| && Shows(s, h[i])
    ensures Since(s, h).Some? && Since(s, h).value < |h| - i
    decreases |h|
  {
    hide Shows;
    if i < |h| - 1 { SinceBound(s, h[..|h| - 1], i); }
  }

  /** Two tone shifts, or two hand-offs, are at least three turns apart. */
  lemma FiringsAreSpaced(bank: seq<Question>, h: seq<Context>, s: Sign)
    requires IsBank(bank) && Run(bank, h) && s in {ToneShift, HandOff}
    ensures Spaced(s, h)
  {
    hide End, Run, RecoveryOf, LadderOf, ScoresOf;
    forall i, j | 0 <= i < j < |h| && Shows(s, h[i]) && Shows(s, h[j]) ensures i + 3 <= j {
      RunPrefix(bank, h, j);
      CountersAreHistory(bank, h[..j]);
      assert h[..j][i] == h[i];
      SinceBound(s, h[..j], i);
    }
  }

  /** Any n consecutive turns hold at most ceil(n / 3) firings of either rule. */
  lemma FiringRate(bank: seq<Question>, h: seq<Context>, s: Sign, a: nat, b: nat)
    requires IsBank(bank) && Run(bank, h) && s in {ToneShift, HandOff} && a <= b <= |h|
    ensures 3 * Times(s, h[a..b]) <= (b - a) + 2
  {
    hide Shows, Run;
    FiringsAreSpaced(bank, h, s);
    SpacedTimes(s, h[a..b]);
  }

  lemma {:induction false} SpacedTimes(s: Sign, h: seq<Context>)
    requires Spaced(s, h)
    ensures 3 * Times(s, h) <= |h| + 2
    decreases |h|
  {
    hide Shows;
    if h != [] {
      var one := h[..|h| - 1];
      SpacedTimes(s, one);
      if Shows(s, h[|h| - 1]) && |h| >= 2 {
        assert !Shows(s, h[|h| - 2]);
        var two := one[..|one| - 1];
        if |h| >= 3 {
          assert !Shows(s, h[|h| - 3]);
          SpacedTimes(s, two[..|two| - 1]);
        }
      }
    }
  }
}
