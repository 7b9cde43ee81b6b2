/** Witness runs: a student who sends the same signals on every turn, the window holding the last ten of them. */
module SteadyRuns {
  import opened Text
  import opened PolicyTypes
  import opened PolicyAutomata
  import opened Questions
  import opened Engine
  import opened PolicyRuns

  const OVERWHELMED: UserSignals := Signals(1.0, 1.0, true, false, false, false, 0.0, 0.0, 0)

  const STUCK: UserSignals := Signals(1.0, 0.0, true, false, false, false, 2.0, -1.0, 0)

  const BLOCKED: UserSignals := Signals(0.0, 0.0, true, false, true, false, 0.0, 0.0, 0)

  function Repeated(u: UserSignals, n: nat): (r: seq<UserSignals>)
    ensures |r| == n && forall i | 0 <= i < n :: r[i] == u
  {
    if n == 0 then [] else [u] + Repeated(u, n - 1)
  }

  function SteadyTurn(u: UserSignals, e: Carry, n: nat): Context {
    Context(e, n, false, u, Repeated(u, Min(n, 10)), None)
  }

  function Steady(bank: seq<Question>, u: UserSignals, n: nat): (h: seq<Context>)
    requires IsBank(bank)
    ensures |h| == n
  {
    if n == 0 then [] else
      var past := Steady(bank, u, n - 1);
      past + [SteadyTurn(u, End(bank, past), n - 1)]
  }

  /** Where the session stands before turn n. */
  function Before(bank: seq<Question>, u: UserSignals, n: nat): Carry
    requires IsBank(bank)
  {
    End(bank, Steady(bank, u, n))
  }

  lemma {:induction false} SteadyIsRun(bank: seq<Question>, u: UserSignals, n: nat)
    requires IsBank(bank)
    ensures Run(bank, Steady(bank, u, n))
    ensures n == 0 ==> Before(bank, u, n) == FRESH
    ensures n > 0 ==> Before(bank, u, n) == After(bank, SteadyTurn(u, Before(bank, u, n - 1), n - 1))
  {
    hide After, End, Run;
    if n == 0 {
      NothingYet(bank);
    } else {
      SteadyIsRun(bank, u, n - 1);
      var past := Steady(bank, u, n - 1);
      TurnIs(u, End(bank, past), n - 1);
      hide SteadyTurn;
      RunGrows(bank, past, SteadyTurn(u, End(bank, past), n - 1));
    }
  }

  lemma NothingYet(bank: seq<Question>)
    requires IsBank(bank)
    ensures Run(bank, []) && End(bank, []) == FRESH
  {
  }

  lemma TurnIs(u: UserSignals, e: Carry, n: nat)
    ensures var c := SteadyTurn(u, e, n);
            c.carry == e && c.turnCount == n && c.signals == u && c.window == Repeated(u, Min(n, 10))
  {
  }

  lemma {:induction false} SteadyAt(bank: seq<Question>, u: UserSignals, n: nat, i: nat)
    requires IsBank(bank) && i < n
    ensures Steady(bank, u, n)[i] == SteadyTurn(u, Before(bank, u, i), i)
  {
    hide End, SteadyTurn;
    if i < n - 1 { SteadyAt(bank, u, n - 1, i); }
  }

  lemma TimesGrow(bank: seq<Question>, u: UserSignals, s: Sign, n: nat)
    requires IsBank(bank) && n > 0
    ensures Times(s, Steady(bank, u, n)) == Times(s, Steady(bank, u, n - 1))
            + if Shows(s, SteadyTurn(u, Before(bank, u, n - 1), n - 1)) then 1 else 0
  {
    hide Shows, SteadyTurn, End;
    var past := Steady(bank, u, n - 1);
    assert Steady(bank, u, n)[..n - 1] == past;
  }

  // ----- the firing rates are attained -----

  lemma OverwhelmedAffect(window: seq<UserSignals>)
    ensures ComputeScores(window, OVERWHELMED).affectLoad == 1.0
  {
    hide ProceduralBlock, HintAbuse, Struggle, Miscalibration;
  }

  lemma ToneOn(e: Carry, n: nat)
    ensures ToneFires(SteadyTurn(OVERWHELMED, e, n)) <==> e.sinceMeta >= 2
  {
    hide ComputeScores, Repeated;
    OverwhelmedAffect(Repeated(OVERWHELMED, Min(n, 10)));
  }

  /** The counter of a rule that fires whenever it may. */
  function EveryThird(n: nat): nat {
    if n == 0 then 99 else (n - 1) % 3
  }

  lemma EveryThirdStep(n: nat)
    ensures EveryThird(0) == 99
    ensures n > 0 ==>
              && EveryThird(n) == CooldownNext(EveryThird(n - 1), EveryThird(n - 1) >= 2)
              && (n + 2) / 3 == (n + 1) / 3 + if EveryThird(n - 1) >= 2 then 1 else 0
  {
  }

  /** An overwhelmed student gets a tone shift on every third turn: ceil(n / 3) in the first n turns. */
  lemma {:induction false} ToneRateIsTight(bank: seq<Question>, n: nat)
    requires IsBank(bank)
    ensures Run(bank, Steady(bank, OVERWHELMED, n))
    ensures Before(bank, OVERWHELMED, n).sinceMeta == EveryThird(n)
    ensures Times(ToneShift, Steady(bank, OVERWHELMED, n)) == (n + 2) / 3
  {
    hide Run, Before, Steady, EveryThird, CooldownNext, Times, IsBank, Shows, After, SteadyTurn;
    EveryThirdStep(n);
    SteadyIsRun(bank, OVERWHELMED, n);
    if n == 0 {
      NoTimes(ToneShift, bank, OVERWHELMED);
    } else {
      ToneRateIsTight(bank, n - 1);
      ToneStep(bank, n);
    }
  }

  lemma ToneStep(bank: seq<Question>, n: nat)
    requires IsBank(bank) && n > 0
    ensures var fires := Before(bank, OVERWHELMED, n - 1).sinceMeta >= 2;
            && Before(bank, OVERWHELMED, n).sinceMeta == CooldownNext(Before(bank, OVERWHELMED, n - 1).sinceMeta, fires)
            && Times(ToneShift, Steady(bank, OVERWHELMED, n))
               == Times(ToneShift, Steady(bank, OVERWHELMED, n - 1)) + if fires then 1 else 0
  {
    hide After, End, Run, ToneFires, SteadyTurn, Before, Steady, CooldownNext, Times, IsBank, Shows;
    var e := Before(bank, OVERWHELMED, n - 1);
    SteadyIsRun(bank, OVERWHELMED, n);
    TurnIs(OVERWHELMED, e, n - 1);
    AfterFields(bank, SteadyTurn(OVERWHELMED, e, n - 1));
    ToneOn(e, n - 1);
    FiringShows(SteadyTurn(OVERWHELMED, e, n - 1));
    TimesGrow(bank, OVERWHELMED, ToneShift, n);
  }

  lemma FiringShows(c: Context)
    ensures Shows(ToneShift, c) == ToneFires(c) && Shows(HandOff, c) == ProcFires(c)
  {
    hide ToneFires, ProcFires;
  }

  lemma NoTimes(s: Sign, bank: seq<Question>, u: UserSignals)
    requires IsBank(bank)
    ensures Times(s, Steady(bank, u, 0)) == 0
  {
  }

  lemma {:induction false} AllProcedural(s: seq<UserSignals>)
    requires forall i | 0 <= i < |s| :: s[i] == BLOCKED
    ensures CountProcedural(s) == |s|
    decreases |s|
  {
    if s != [] { AllProcedural(s[1..]); }
  }

  lemma BlockedIsStuck(n: nat)
    ensures ProceduralStuck(Repeated(BLOCKED, n), BLOCKED) <==> n >= 1
  {
    hide Repeated, CountDirect;
    var window := Repeated(BLOCKED, n);
    AllProcedural(ProceduralTurns(window, BLOCKED));
    if n >= 1 { assert window[0].attemptPresent; }
  }

  lemma HandOffOn(e: Carry, n: nat)
    ensures ProcFires(SteadyTurn(BLOCKED, e, n)) <==> n >= 1 && e.sinceProc >= 2
  {
    hide ProceduralStuck, Repeated;
    BlockedIsStuck(Min(n, 10));
    HandOffIff(SteadyTurn(BLOCKED, e, n));
  }

  lemma {:induction false} HandOffRate(bank: seq<Question>, n: nat)
    requires IsBank(bank)
    ensures Before(bank, BLOCKED, n).sinceProc == if n <= 1 then 99 + n else EveryThird(n - 1)
    ensures Times(HandOff, Steady(bank, BLOCKED, n)) == if n == 0 then 0 else (n + 1) / 3
  {
    hide Run, Before, Steady, EveryThird, CooldownNext, Times, IsBank, Shows, After, SteadyTurn;
    FirstSteps();
    if n == 0 {
      SteadyIsRun(bank, BLOCKED, n);
      NoTimes(HandOff, bank, BLOCKED);
    } else {
      EveryThirdStep(n - 1);
      HandOffRate(bank, n - 1);
      HandOffStep(bank, n);
    }
  }

  lemma HandOffStep(bank: seq<Question>, n: nat)
    requires IsBank(bank) && n > 0
    ensures var fires := n > 1 && Before(bank, BLOCKED, n - 1).sinceProc >= 2;
            && Before(bank, BLOCKED, n).sinceProc == CooldownNext(Before(bank, BLOCKED, n - 1).sinceProc, fires)
            && Times(HandOff, Steady(bank, BLOCKED, n))
               == Times(HandOff, Steady(bank, BLOCKED, n - 1)) + if fires then 1 else 0
  {
    hide After, End, Run, ProcFires, SteadyTurn, Before, Steady, CooldownNext, Times, IsBank, Shows;
    var e := Before(bank, BLOCKED, n - 1);
    SteadyIsRun(bank, BLOCKED, n);
    TurnIs(BLOCKED, e, n - 1);
    AfterFields(bank, SteadyTurn(BLOCKED, e, n - 1));
    HandOffOn(e, n - 1);
    FiringShows(SteadyTurn(BLOCKED, e, n - 1));
    TimesGrow(bank, BLOCKED, HandOff, n);
  }

  lemma FirstSteps()
    ensures CooldownNext(99, false) == 100 && CooldownNext(100, true) == 0 && EveryThird(1) == 0
  {
  }

  lemma {:induction false} TimesAppend(s: Sign, a: seq<Context>, b: seq<Context>)
    ensures Times(s, a + b) == Times(s, a) + Times(s, b)
    decreases |b|
  {
    hide Shows;
    if b == [] {
      assert a + b == a;
    } else {
      TimesAppend(s, a, b[..|b| - 1]);
      assert (a + b)[..|a + b| - 1] == a + b[..|b| - 1];
    }
  }

  /** A student stuck on facts gets a hand-off on every third turn after the first: ceil(n / 3) in those n turns. */
  lemma HandOffRateIsTight(bank: seq<Question>, n: nat)
    requires IsBank(bank)
    ensures var h := Steady(bank, BLOCKED, n + 1);
            Run(bank, h) && Times(HandOff, h[1..]) == (n + 2) / 3
  {
    hide Run, Shows, Steady, Times, Before, IsBank, EveryThird, After, SteadyTurn;
    var h := Steady(bank, BLOCKED, n + 1);
    SteadyIsRun(bank, BLOCKED, n + 1);
    HandOffRate(bank, n + 1);
    HandOffRate(bank, 1);
    FirstTurn(bank, BLOCKED, n + 1);
    TimesOfRest(HandOff, h);
  }

  lemma TimesOfRest(s: Sign, h: seq<Context>)
    requires h != []
    ensures Times(s, h) == Times(s, h[..1]) + Times(s, h[1..])
  {
    hide Shows, Times;
    TimesAppend(s, h[..1], h[1..]);
    assert h == h[..1] + h[1..];
  }

  lemma {:induction false} FirstTurn(bank: seq<Question>, u: UserSignals, n: nat)
    requires IsBank(bank) && n >= 1
    ensures Steady(bank, u, n)[..1] == Steady(bank, u, 1)
  {
    hide SteadyTurn, End;
    if n > 1 { FirstTurn(bank, u, n - 1); }
  }
}
