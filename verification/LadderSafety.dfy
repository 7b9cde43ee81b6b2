/** What must precede each move of the hint ladder, over whole runs (hint_ladder.py, engine.py). */
module LadderSafety {
  import opened PolicyTypes
  import opened PolicyAutomata
  import opened Questions
  import opened Engine
  import opened PolicyRuns
  import opened SteadyRuns

  function Rank(r: Rung): nat {
    match r case PROCESS_FEEDBACK => 0 case STRATEGIC_HINT => 1 case FOCUSED_HINT => 2 case BOTTOM_OUT => 3
  }

  /** The rung turn i decided on. */
  function RungAt(h: seq<Context>, i: nat): Rung
    requires i < |h|
  {
    LadderOf(h[i]).0
  }

  /** The two moves of one turn, exactly: one rung up on attempted high struggle outside recovery, the last one only
      after enough turns on the third; and the drop to the first that ends a low-struggle pair. */
  lemma OneStep(c: Context)
    ensures var (prev, next) := (c.carry.hint, LadderOf(c).0);
            && (Rank(next) > Rank(prev) <==>
                  && RecoveryOf(c).0 == NORMAL && Struggle(c.signals) > STRUGGLE_HIGH && c.signals.attemptPresent
                  && prev != BOTTOM_OUT && (prev == FOCUSED_HINT ==> c.carry.turnsInHint >= MIN_TURNS_AT_FOCUSED))
            && (Rank(next) > Rank(prev) ==> Rank(next) == Rank(prev) + 1)
            && (Rank(next) < Rank(prev) <==>
                  && RecoveryOf(c).0 == NORMAL && Struggle(c.signals) < STRUGGLE_LOW && c.carry.lowStreak >= 1
                  && prev != PROCESS_FEEDBACK)
            && (Rank(next) < Rank(prev) ==> next == PROCESS_FEEDBACK)
            && ScoresOf(c).struggle == Struggle(c.signals)
  {
    hide Struggle, RecoveryOf, AffectLoad, ProceduralBlock, HintAbuse, Miscalibration;
  }

  /** No rung is reached before that many decisions. */
  lemma {:induction false} RankNeedsTurns(bank: seq<Question>, h: seq<Context>)
    requires IsBank(bank) && Run(bank, h)
    ensures Rank(End(bank, h).hint) <= |h|
    decreases |h|
  {
    hide After, LadderOf;
    if h != [] {
      RankNeedsTurns(bank, h[..|h| - 1]);
      AfterFields(bank, h[|h| - 1]);
      OneStep(h[|h| - 1]);
    }
  }

  lemma {:induction false} StreakShows(s: Sign, h: seq<Context>, i: nat)
    requires i < |h| && |h| - i <= Streak(s, h)
    ensures Shows(s, h[i])
    decreases |h|
  {
    hide Shows;
    if i < |h| - 1 { StreakShows(s, h[..|h| - 1], i); }
  }

  lemma StreakTail(s: Sign, h: seq<Context>)
    requires Streak(s, h) >= 1
    ensures Shows(s, h[|h| - 1]) && Streak(s, h[..|h| - 1]) == Streak(s, h) - 1
  {
    hide Shows;
  }

  /** As long as the rung stays, every turn of the streak started and ended on it. */
  lemma {:induction false} StreakKeepsRung(bank: seq<Question>, h: seq<Context>, i: nat)
    requires IsBank(bank) && Run(bank, h) && i < |h| && |h| - i <= Streak(SameRung, h)
    ensures RungAt(h, i) == h[i].carry.hint == End(bank, h).hint
    decreases |h|
  {
    hide After, LadderOf, Run, End, IsBank, RecoveryOf, Streak;
    var one := h[..|h| - 1];
    StreakTail(SameRung, h);
    RunStep(bank, h, |h| - 1);
    assert h[..|h|] == h;
    AfterFields(bank, h[|h| - 1]);
    if i < |h| - 1 {
      StreakKeepsRung(bank, one, i);
      assert one[i] == h[i];
    }
  }

  predicate FocusedBefore(h: seq<Context>, i: nat)
    requires i <= |h|
  {
    i >= 5 && forall j | i - 4 <= j < i :: RungAt(h, j) == FOCUSED_HINT
  }

  /** Entering the last rung: four focused decisions just before, never before the sixth decision, not while
      recovering, on a turn with an attempt and struggle above 0.6. */
  lemma BottomOutEntry(bank: seq<Question>, h: seq<Context>, i: nat)
    requires IsBank(bank) && Run(bank, h) && i < |h|
    requires RungAt(h, i) == BOTTOM_OUT && End(bank, h[..i]).hint != BOTTOM_OUT
    ensures FocusedBefore(h, i)
    ensures RecoveryOf(h[i]).0 == NORMAL && ScoresOf(h[i]).struggle > STRUGGLE_HIGH && h[i].signals.attemptPresent
  {
    hide After, LadderOf, ScoresOf, RecoveryOf, Run, End, Streak;
    RunStep(bank, h, i);
    OneStep(h[i]);
    CountersAreHistory(bank, h[..i]);
    FocusedStreak(bank, h[..i]);
    forall j | i - 4 <= j < i ensures RungAt(h, j) == FOCUSED_HINT {
      assert RungAt(h[..i], j) == RungAt(h, j);
    }
  }

  lemma FocusedStreak(bank: seq<Question>, h: seq<Context>)
    requires IsBank(bank) && Run(bank, h)
    requires End(bank, h).hint == FOCUSED_HINT && Streak(SameRung, h) >= 3
    ensures FocusedBefore(h, |h|)
  {
    hide After, LadderOf, ScoresOf, RecoveryOf, Run, End, Streak, IsBank, Rank;
    var n := |h|;
    StreakKeepsRung(bank, h, n - 1);
    StreakKeepsRung(bank, h, n - 2);
    StreakKeepsRung(bank, h, n - 3);
    ArrivedFocused(bank, h, n - 3);
  }

  lemma ArrivedFocused(bank: seq<Question>, h: seq<Context>, i: nat)
    requires IsBank(bank) && Run(bank, h) && i < |h| && h[i].carry.hint == FOCUSED_HINT
    ensures i >= 2 && RungAt(h, i - 1) == FOCUSED_HINT
  {
    hide After, LadderOf, ScoresOf, RecoveryOf, Run, End, IsBank;
    RunStep(bank, h, i);
    RankNeedsTurns(bank, h[..i]);
    RunStep(bank, h, i - 1);
    AfterFields(bank, h[i - 1]);
  }

  /** Over runs, exactly when a turn drops to the first rung, and when it climbs to one but the last: outside recovery, at
      the end of two low-struggle turns, or on attempted high struggle. */
  lemma MovesIff(bank: seq<Question>, h: seq<Context>, i: nat)
    requires IsBank(bank) && Run(bank, h) && i < |h|
    ensures var (prev, next) := (Rank(End(bank, h[..i]).hint), Rank(RungAt(h, i)));
            && (next < prev <==> && RecoveryOf(h[i]).0 == NORMAL && prev > 0
                                 && i >= 1 && Struggle(h[i].signals) < 0.3 && Struggle(h[i - 1].signals) < 0.3)
            && (next < prev ==> next == 0)
            && (prev <= 1 ==>
                  (next > prev <==> RecoveryOf(h[i]).0 == NORMAL && Struggle(h[i].signals) > 0.6 && h[i].signals.attemptPresent))
            && (next > prev ==> next == prev + 1)
  {
    hide After, LadderOf, RecoveryOf, Run, End, Struggle, AffectLoad, ProceduralBlock, HintAbuse, Miscalibration;
    RunPrefix(bank, h, i);
    OneStep(h[i]);
    CountersAreHistory(bank, h[..i]);
    if i >= 1 { StreakEnds(LowStruggle, h[..i]); }
  }

  lemma StreakEnds(s: Sign, h: seq<Context>)
    requires h != []
    ensures Streak(s, h) >= 1 <==> Shows(s, h[|h| - 1])
  {
    hide Shows;
  }

  /** And exactly when it climbs to the last rung: after four focused decisions. */
  lemma BottomOutIff(bank: seq<Question>, h: seq<Context>, i: nat)
    requires IsBank(bank) && Run(bank, h) && i < |h| && End(bank, h[..i]).hint == FOCUSED_HINT
    ensures RungAt(h, i) == BOTTOM_OUT <==>
            && FocusedBefore(h, i) && RecoveryOf(h[i]).0 == NORMAL && Struggle(h[i].signals) > 0.6
            && h[i].signals.attemptPresent
  {
    hide After, LadderOf, RecoveryOf, Run, End, Struggle, Streak, AffectLoad, ProceduralBlock, HintAbuse, Miscalibration;
    RunPrefix(bank, h, i);
    OneStep(h[i]);
    CountersAreHistory(bank, h[..i]);
    if RungAt(h, i) == BOTTOM_OUT { BottomOutEntry(bank, h, i); }
    if FocusedBefore(h, i) { FocusedMeansStreak(bank, h, i); }
  }

  lemma FocusedMeansStreak(bank: seq<Question>, h: seq<Context>, i: nat)
    requires IsBank(bank) && Run(bank, h) && i <= |h| && FocusedBefore(h, i)
    ensures Streak(SameRung, h[..i]) >= 3
  {
    hide After, LadderOf, Run, End, RecoveryOf, ScoresOf, Streak;
    SameAgain(bank, h, i - 1);
    SameAgain(bank, h, i - 2);
    SameAgain(bank, h, i - 3);
    StreakOne(SameRung, h, i);
    StreakOne(SameRung, h, i - 1);
    StreakOne(SameRung, h, i - 2);
  }

  lemma StreakOne(s: Sign, h: seq<Context>, i: nat)
    requires 1 <= i <= |h| && Shows(s, h[i - 1])
    ensures Streak(s, h[..i]) == 1 + Streak(s, h[..i - 1])
  {
    hide Shows;
    assert h[..i][..i - 1] == h[..i - 1] && h[..i][i - 1] == h[i - 1];
  }

  lemma SameAgain(bank: seq<Question>, h: seq<Context>, j: nat)
    requires IsBank(bank) && Run(bank, h) && 1 <= j < |h| && RungAt(h, j) == RungAt(h, j - 1)
    ensures Shows(SameRung, h[j])
  {
    hide After, LadderOf, Run, End, RecoveryOf, ScoresOf;
    RunStep(bank, h, j);
    RunStep(bank, h, j - 1);
    AfterFields(bank, h[j - 1]);
  }

  /** Every other move is one rung up on attempted high struggle, or a drop to the first rung closing at least two
      low-struggle turns; neither happens while recovering. */
  lemma OtherMoves(bank: seq<Question>, h: seq<Context>, i: nat)
    requires IsBank(bank) && Run(bank, h) && i < |h|
    requires RungAt(h, i) != End(bank, h[..i]).hint
    ensures RecoveryOf(h[i]).0 == NORMAL
    ensures Rank(RungAt(h, i)) > Rank(End(bank, h[..i]).hint) ==>
              && Rank(RungAt(h, i)) == Rank(End(bank, h[..i]).hint) + 1
              && ScoresOf(h[i]).struggle > STRUGGLE_HIGH && h[i].signals.attemptPresent
    ensures Rank(RungAt(h, i)) < Rank(End(bank, h[..i]).hint) ==>
              && RungAt(h, i) == PROCESS_FEEDBACK
              && i >= 1 && Shows(LowStruggle, h[i]) && Shows(LowStruggle, h[i - 1])
  {
    hide After, LadderOf, ScoresOf, RecoveryOf, Run, End;
    RunPrefix(bank, h, i);
    OneStep(h[i]);
    CountersAreHistory(bank, h[..i]);
    if h[i].carry.lowStreak >= 1 { StreakShows(LowStruggle, h[..i], i - 1); }
  }

  /** Where six attempted high-struggle turns stand after i of them. */
  function Climb(i: nat): (Rung, nat) {
    if i == 0 then (PROCESS_FEEDBACK, 0) else if i == 1 then (STRATEGIC_HINT, 0)
    else if i <= 5 then (FOCUSED_HINT, i - 2) else (BOTTOM_OUT, 0)
  }

  lemma ClimbStep(c: Context, i: nat)
    requires RecoveryOf(c).0 == NORMAL && ScoresOf(c).struggle > STRUGGLE_HIGH && c.signals.attemptPresent
    requires (c.carry.hint, c.carry.turnsInHint) == Climb(i) && i < 6
    ensures (LadderOf(c).0, LadderOf(c).1) == Climb(i + 1)
  {
    hide ScoresOf, RecoveryOf;
  }

  /** They reach the last rung on the sixth decision. */
  lemma {:induction false} SixthDecisionBottomsOut(bank: seq<Question>, h: seq<Context>, i: nat)
    requires IsBank(bank) && Run(bank, h) && i <= 6 <= |h|
    requires forall j | 0 <= j < 6 ::
               RecoveryOf(h[j]).0 == NORMAL && ScoresOf(h[j]).struggle > STRUGGLE_HIGH && h[j].signals.attemptPresent
    ensures (End(bank, h[..i]).hint, End(bank, h[..i]).turnsInHint) == Climb(i)
    ensures i == 6 ==> RungAt(h, 5) == BOTTOM_OUT
  {
    hide Run, After, ScoresOf, RecoveryOf, End, LadderOf, IsBank;
    if i == 0 {
      EndOfNothing(bank, h);
    } else {
      SixthDecisionBottomsOut(bank, h, i - 1);
      RunStep(bank, h, i - 1);
      ClimbStep(h[i - 1], i - 1);
      AfterFields(bank, h[i - 1]);
    }
  }

  lemma EndOfNothing(bank: seq<Question>, h: seq<Context>)
    requires IsBank(bank)
    ensures End(bank, h[..0]) == FRESH
  {
  }

  lemma StuckTurn(e: Carry, n: nat)
    requires e.recovery == NORMAL
    ensures var c := SteadyTurn(STUCK, e, n);
            RecoveryOf(c).0 == NORMAL && ScoresOf(c).struggle > STRUGGLE_HIGH && c.signals.attemptPresent
  {
    hide Repeated, HighAffectCount, ProceduralBlock, HintAbuse, Miscalibration;
  }

  lemma {:induction false} StuckStaysNormal(bank: seq<Question>, n: nat)
    requires IsBank(bank)
    ensures Before(bank, STUCK, n).recovery == NORMAL
  {
    hide After, Before, SteadyTurn, Run, Steady, RecoveryOf, ScoresOf;
    SteadyIsRun(bank, STUCK, n);
    if n > 0 {
      StuckStaysNormal(bank, n - 1);
      var e := Before(bank, STUCK, n - 1);
      StuckTurn(e, n - 1);
      AfterFields(bank, SteadyTurn(STUCK, e, n - 1));
    }
  }

  /** A run, on any bank, that reaches the last rung on its sixth decision. */
  lemma SixthDecisionIsTight(bank: seq<Question>)
    requires IsBank(bank)
    ensures var h := Steady(bank, STUCK, 6); Run(bank, h) && RungAt(h, 5) == BOTTOM_OUT
  {
    hide Run, RecoveryOf, ScoresOf, LadderOf, Steady, Before, SteadyTurn, End;
    var h := Steady(bank, STUCK, 6);
    SteadyIsRun(bank, STUCK, 6);
    forall j | 0 <= j < 6
      ensures RecoveryOf(h[j]).0 == NORMAL && ScoresOf(h[j]).struggle > STRUGGLE_HIGH && h[j].signals.attemptPresent
    {
      SteadyAt(bank, STUCK, 6, j);
      StuckStaysNormal(bank, j);
      StuckTurn(Before(bank, STUCK, j), j);
    }
    SixthDecisionBottomsOut(bank, h, 6);
  }
}
