/** The per-session metrics collector against its definitions over the whole decision list (metrics.py). */
module Metrics {
  import opened PolicyTypes
  import opened PolicyAutomata
  import opened Questions
  import opened Engine
  import opened PolicyRuns

  // ----- the definitions -----

  datatype Feature = OnRung(rung: Rung) | Crowded | Miscalibrated | EntersRecovery | InRecovery | HandsOff

  predicate Has(f: Feature, ds: seq<Decision>, i: nat)
    requires i < |ds|
  {
    match f
    case OnRung(r) => ds[i].nextHint == r
    case Crowded => |ds[i].applied| > 1
    case Miscalibrated => ds[i].scores.miscalibration > 0.5
    case EntersRecovery => ds[i].nextRecovery == STABILIZE && (i > 0 ==> ds[i - 1].nextRecovery == NORMAL)
    case InRecovery => ds[i].nextRecovery == STABILIZE
    case HandsOff => ProceduralUnblockFired in ds[i].applied
  }

  /** The turns with a feature. */
  function Turns(f: Feature, ds: seq<Decision>): set<nat> {
    set i: nat | i < |ds| && Has(f, ds, i)
  }

  function AllApplied(ds: seq<Decision>): seq<Applied> {
    if ds == [] then [] else AllApplied(ds[..|ds| - 1]) + ds[|ds| - 1].applied
  }

  /** Stuck and left so. */
  predicate Stuck(d: Decision) {
    d.scores.proceduralBlock > 0.0 && ProceduralUnblockFired !in d.applied
  }

  /** Consecutive stuck turns, the last of which may instead be the hand-off that ends them. */
  predicate IsStuckRun(ds: seq<Decision>, a: nat, b: nat) {
    && a < b <= |ds|
    && (forall i | a <= i < b - 1 :: Stuck(ds[i]))
    && (Stuck(ds[b - 1]) || ProceduralUnblockFired in ds[b - 1].applied)
  }

  ghost predicate IsLongestStuckRun(ds: seq<Decision>, m: nat) {
    && (forall a: nat, b: nat | IsStuckRun(ds, a, b) :: b - a <= m)
    && (m > 0 ==> exists a: nat, b: nat :: IsStuckRun(ds, a, b) && b - a == m)
  }

  /** The last `n` turns are stuck and no longer stretch is. */
  predicate EndsStuck(ds: seq<Decision>, n: nat) {
    && n <= |ds|
    && (forall i | |ds| - n <= i < |ds| :: Stuck(ds[i]))
    && (n < |ds| ==> !Stuck(ds[|ds| - n - 1]))
  }

  function CountOf<T(==)>(m: map<T, nat>, k: T): nat {
    if k in m then m[k] else 0
  }

  // ----- one more decision -----

  lemma TurnsGrow(f: Feature, ds: seq<Decision>, d: Decision)
    ensures |Turns(f, ds + [d])| == |Turns(f, ds)| + if Has(f, ds + [d], |ds|) then 1 else 0
  {
    hide Has;
    var all := ds + [d];
    forall i: nat ensures i in Turns(f, all) <==> i in Turns(f, ds) || (i == |ds| && Has(f, all, |ds|)) {
      if i < |ds| { HasStays(f, ds, d, i); }
    }
    hide Turns;
    OneMore(Turns(f, all), Turns(f, ds), |ds|, Has(f, all, |ds|));
  }

  lemma OneMore(more: set<nat>, less: set<nat>, x: nat, grows: bool)
    requires x !in less && forall i: nat :: i in more <==> i in less || (i == x && grows)
    ensures |more| == |less| + if grows then 1 else 0
  {
    assert more == less + if grows then {x} else {};
  }

  lemma HasStays(f: Feature, ds: seq<Decision>, d: Decision, i: nat)
    requires i < |ds|
    ensures Has(f, ds + [d], i) == Has(f, ds, i)
  {
    assert (ds + [d])[i] == ds[i];
  }

  lemma StuckRunsGrow(ds: seq<Decision>, d: Decision, a: nat, b: nat)
    ensures b <= |ds| ==> IsStuckRun(ds + [d], a, b) == IsStuckRun(ds, a, b)
    ensures IsStuckRun(ds + [d], a, |ds| + 1) <==>
            && a <= |ds| && (forall i | a <= i < |ds| :: Stuck(ds[i]))
            && (Stuck(d) || ProceduralUnblockFired in d.applied)
  {
    hide Stuck;
    var all := ds + [d];
    assert forall i | 0 <= i < |ds| :: all[i] == ds[i];
    assert all[|ds|] == d;
  }

  /** A new decision lengthens the trailing run when it is stuck or a hand-off, and only that run can be longer. */
  lemma LongestGrows(ds: seq<Decision>, d: Decision, m: nat, n: nat)
    requires IsLongestStuckRun(ds, m) && EndsStuck(ds, n)
    ensures IsLongestStuckRun(ds + [d],
              if Stuck(d) || ProceduralUnblockFired in d.applied then (if n + 1 > m then n + 1 else m) else m)
  {
    hide Stuck, IsStuckRun;
    var all := ds + [d];
    var closes := Stuck(d) || ProceduralUnblockFired in d.applied;
    var best := if closes && n + 1 > m then n + 1 else m;
    forall a: nat, b: nat | IsStuckRun(all, a, b) ensures b - a <= best {
      StuckRunsGrow(ds, d, a, b);
      StuckRunBounds(all, a, b);
      if b == |ds| + 1 { TrailBounds(ds, n, a); }
    }
    if best > m {
      StuckRunsGrow(ds, d, |ds| - n, |ds| + 1);
      assert IsStuckRun(all, |ds| - n, |ds| + 1);
    } else if m > 0 {
      var a: nat, b: nat :| IsStuckRun(ds, a, b) && b - a == m;
      StuckRunBounds(ds, a, b);
      StuckRunsGrow(ds, d, a, b);
      assert IsStuckRun(all, a, b);
    }
  }

  lemma TrailBounds(ds: seq<Decision>, n: nat, a: nat)
    requires EndsStuck(ds, n) && a <= |ds| && forall i | a <= i < |ds| :: Stuck(ds[i])
    ensures |ds| - a <= n
  {
    hide Stuck;
  }

  lemma StuckRunBounds(ds: seq<Decision>, a: nat, b: nat)
    requires IsStuckRun(ds, a, b)
    ensures a < b <= |ds|
  {
  }

  lemma EndsStuckGrows(ds: seq<Decision>, d: Decision, n: nat)
    requires EndsStuck(ds, n)
    ensures EndsStuck(ds + [d], if Stuck(d) then n + 1 else 0)
  {
    hide Stuck;
    assert forall i | 0 <= i < |ds| :: (ds + [d])[i] == ds[i];
  }

  // ----- the collector -----

  datatype Snapshot = Snapshot(
    totalTurns: nat,
    leakageRate: real,
    hintDistribution: map<Rung, nat>,
    overInterventionRate: real,
    ruleFiringCounts: map<Applied, nat>,
    calibrationGap: real,
    recoveryEntries: nat,
    proceduralUnblocks: nat,
    stuckRunMax: nat)

  class MetricsCollector {
    var totalTurns: nat
    var leakages: nat
    var hintDistribution: map<Rung, nat>
    var ruleFiringCounts: map<Applied, nat>
    var overInterventionTurns: nat
    var miscalibrationHighTurns: nat
    var recoveryEntries: nat
    var prevRecovery: Recovery
    var proceduralUnblocks: nat
    var stuckRunMax: nat
    var currentStuckRun: nat

    constructor ()
      ensures Summarises([]) && leakages == 0
    {
      totalTurns, leakages, overInterventionTurns, miscalibrationHighTurns := 0, 0, 0, 0;
      hintDistribution := map[PROCESS_FEEDBACK := 0, STRATEGIC_HINT := 0, FOCUSED_HINT := 0, BOTTOM_OUT := 0];
      ruleFiringCounts := map[];
      recoveryEntries, prevRecovery := 0, NORMAL;
      proceduralUnblocks, stuckRunMax, currentStuckRun := 0, 0, 0;
      new;
      hide Turns, EndsStuck, IsLongestStuckRun;
      forall f ensures |Turns(f, [])| == 0 { NoTurns(f); }
      NothingStuck();
      forall r ensures r in hintDistribution && hintDistribution[r] == |Turns(OnRung(r), [])| {
        match r case PROCESS_FEEDBACK => case STRATEGIC_HINT => case FOCUSED_HINT => case BOTTOM_OUT =>
      }
    }

    /** Every counter equals its definition over the decisions recorded so far. */
    ghost predicate Summarises(ds: seq<Decision>)
      reads this
    {
      && totalTurns == |ds|
      && HintsMatch(ds)
      && RulesMatch(ds)
      && overInterventionTurns == |Turns(Crowded, ds)|
      && miscalibrationHighTurns == |Turns(Miscalibrated, ds)|
      && recoveryEntries == |Turns(EntersRecovery, ds)|
      && prevRecovery == (if ds == [] then NORMAL else ds[|ds| - 1].nextRecovery)
      && StucknessMatches(ds)
    }

    ghost predicate HintsMatch(ds: seq<Decision>)
      reads this`hintDistribution
    {
      forall r :: r in hintDistribution && hintDistribution[r] == |Turns(OnRung(r), ds)|
    }

    ghost predicate RulesMatch(ds: seq<Decision>)
      reads this`ruleFiringCounts
    {
      forall r :: CountOf(ruleFiringCounts, r) == multiset(AllApplied(ds))[r]
    }

    ghost predicate StucknessMatches(ds: seq<Decision>)
      reads this`proceduralUnblocks, this`stuckRunMax, this`currentStuckRun
    {
      && proceduralUnblocks == |Turns(HandsOff, ds)|
      && IsLongestStuckRun(ds, stuckRunMax)
      && EndsStuck(ds, currentStuckRun)
    }

    method CountRules(d: Decision, ghost ds: seq<Decision>)
      requires RulesMatch(ds)
      modifies this`ruleFiringCounts
      ensures RulesMatch(ds + [d])
    {
      hide AllApplied;
      for k := 0 to |d.applied|
        invariant forall r :: CountOf(ruleFiringCounts, r) == multiset(AllApplied(ds))[r] + multiset(d.applied[..k])[r]
      {
        ruleFiringCounts := ruleFiringCounts[d.applied[k] := CountOf(ruleFiringCounts, d.applied[k]) + 1];
        assert d.applied[..k + 1] == d.applied[..k] + [d.applied[k]];
      }
      assert d.applied[..|d.applied|] == d.applied;
      AppliedGrows(ds, d);
    }

    method TrackStuckness(d: Decision, ghost ds: seq<Decision>)
      requires StucknessMatches(ds)
      modifies this`proceduralUnblocks, this`stuckRunMax, this`currentStuckRun
      ensures StucknessMatches(ds + [d])
    {
      hide Turns, IsLongestStuckRun, EndsStuck;
      TurnsGrow(HandsOff, ds, d);
      LongestGrows(ds, d, stuckRunMax, currentStuckRun);
      EndsStuckGrows(ds, d, currentStuckRun);
      if ProceduralUnblockFired in d.applied {
        proceduralUnblocks := proceduralUnblocks + 1;
        if currentStuckRun + 1 > stuckRunMax { stuckRunMax := currentStuckRun + 1; }
        currentStuckRun := 0;
      } else if d.scores.proceduralBlock > 0.0 {
        currentStuckRun := currentStuckRun + 1;
        if currentStuckRun > stuckRunMax { stuckRunMax := currentStuckRun; }
      } else {
        currentStuckRun := 0;
      }
    }

    method CountHint(d: Decision, ghost ds: seq<Decision>)
      requires HintsMatch(ds)
      modifies this`hintDistribution
      ensures HintsMatch(ds + [d])
    {
      hide Turns;
      hintDistribution := hintDistribution[d.nextHint := hintDistribution[d.nextHint] + 1];
      forall r ensures r in hintDistribution && hintDistribution[r] == |Turns(OnRung(r), ds + [d])| {
        TurnsGrow(OnRung(r), ds, d);
      }
    }

    /** Streams one decision into the counters. */
    method RecordDecision(d: Decision, ghost ds: seq<Decision>)
      requires Summarises(ds)
      modifies this
      ensures Summarises(ds + [d]) && leakages == old(leakages)
    {
      hide Turns, HintsMatch, RulesMatch, StucknessMatches;
      assert (ds + [d])[|ds|] == d && (ds != [] ==> (ds + [d])[|ds| - 1] == ds[|ds| - 1]);
      TurnsGrow(Crowded, ds, d);
      TurnsGrow(Miscalibrated, ds, d);
      TurnsGrow(EntersRecovery, ds, d);
      totalTurns := totalTurns + 1;
      CountHint(d, ds);
      CountRules(d, ds);
      if |d.applied| > 1 { overInterventionTurns := overInterventionTurns + 1; }
      if d.scores.miscalibration > 0.5 { miscalibrationHighTurns := miscalibrationHighTurns + 1; }
      TrackStuckness(d, ds);
      if d.nextRecovery == STABILIZE && prevRecovery == NORMAL { recoveryEntries := recoveryEntries + 1; }
      prevRecovery := d.nextRecovery;
    }

    method RecordInterceptorCorrection(wasModified: bool)
      modifies this`leakages
      ensures leakages == old(leakages) + if wasModified then 1 else 0
    {
      if wasModified { leakages := leakages + 1; }
    }

    /** The stored view: counts as defined, rates over the number of turns. */
    method TakeSnapshot(ghost ds: seq<Decision>) returns (s: Snapshot)
      requires Summarises(ds)
      ensures s.totalTurns == |ds|
      ensures SumsTo(s.hintDistribution, |ds|)
      ensures forall r :: CountOf(s.ruleFiringCounts, r) == multiset(AllApplied(ds))[r]
      ensures ds != [] ==>
                && s.overInterventionRate * |ds| as real == |Turns(Crowded, ds)| as real
                && s.calibrationGap * |ds| as real == |Turns(Miscalibrated, ds)| as real
                && s.leakageRate * |ds| as real == leakages as real
      ensures s.recoveryEntries == |Turns(EntersRecovery, ds)| && s.proceduralUnblocks == |Turns(HandsOff, ds)|
      ensures IsLongestStuckRun(ds, s.stuckRunMax)
    {
      hide IsLongestStuckRun, EndsStuck, Turns, Has;
      HistogramSums(ds);
      var denom := if totalTurns > 1 then totalTurns else 1;
      s := Snapshot(totalTurns, Rate(leakages, denom), hintDistribution, Rate(overInterventionTurns, denom),
                    ruleFiringCounts, Rate(miscalibrationHighTurns, denom), recoveryEntries, proceduralUnblocks,
                    stuckRunMax);
    }
  }

  predicate SumsTo(hints: map<Rung, nat>, n: nat) {
    && (forall r :: r in hints)
    && hints[PROCESS_FEEDBACK] + hints[STRATEGIC_HINT] + hints[FOCUSED_HINT] + hints[BOTTOM_OUT] == n
  }

  lemma NothingStuck()
    ensures IsLongestStuckRun([], 0) && EndsStuck([], 0)
  {
  }

  lemma AppliedGrows(ds: seq<Decision>, d: Decision)
    ensures multiset(AllApplied(ds + [d])) == multiset(AllApplied(ds)) + multiset(d.applied)
  {
    assert (ds + [d])[..|ds|] == ds;
  }

  function Rate(n: nat, denom: nat): (r: real)
    requires denom >= 1
    ensures r * denom as real == n as real
  {
    n as real / denom as real
  }

  /** The rungs partition the turns. */
  lemma {:induction false} HistogramSums(ds: seq<Decision>)
    ensures |Turns(OnRung(PROCESS_FEEDBACK), ds)| + |Turns(OnRung(STRATEGIC_HINT), ds)|
            + |Turns(OnRung(FOCUSED_HINT), ds)| + |Turns(OnRung(BOTTOM_OUT), ds)| == |ds|
  {
    if ds == [] {
      forall r ensures Turns(OnRung(r), ds) == {} { NoTurns(OnRung(r)); }
    } else {
      hide Turns;
      var past, d := ds[..|ds| - 1], ds[|ds| - 1];
      HistogramSums(past);
      TurnsGrow(OnRung(PROCESS_FEEDBACK), past, d);
      TurnsGrow(OnRung(STRATEGIC_HINT), past, d);
      TurnsGrow(OnRung(FOCUSED_HINT), past, d);
      TurnsGrow(OnRung(BOTTOM_OUT), past, d);
      assert past + [d] == ds;
    }
  }

  // ----- on engine runs -----

  function Decisions(bank: seq<Question>, h: seq<Context>): (ds: seq<Decision>)
    requires IsBank(bank)
    ensures |ds| == |h|
  {
    if h == [] then [] else Decisions(bank, h[..|h| - 1]) + [Decide(bank, h[|h| - 1])]
  }

  /** Each recovery entry accounts for at most three recovery turns. */
  lemma {:induction false} RecoveryTurnsPerEntry(bank: seq<Question>, h: seq<Context>)
    requires IsBank(bank) && Run(bank, h)
    ensures var ds, e := Decisions(bank, h), End(bank, h);
            && (ds != [] ==> ds[|ds| - 1].nextRecovery == e.recovery) && (ds == [] ==> e.recovery == NORMAL)
            && |Turns(InRecovery, ds)| + (if e.recovery == STABILIZE then 3 - e.turnsInRecovery else 0)
               <= 3 * |Turns(EntersRecovery, ds)|
    decreases |h|
  {
    hide Turns, Decide, RecoveryOf, After, Run;
    if h != [] {
      var past, c := h[..|h| - 1], h[|h| - 1];
      var d := Decide(bank, c);
      RunStep(bank, h, |past|);
      RecoveryTurnsPerEntry(bank, past);
      RecoveryInvariant(bank, past);
      AfterFields(bank, c);
      DecidesRecovery(bank, c);
      RecoveryGrows(Decisions(bank, past), d);
      RecoveryLasts(c);
    } else {
      NoTurns(InRecovery);
    }
  }

  lemma RecoveryGrows(ds: seq<Decision>, d: Decision)
    ensures |Turns(InRecovery, ds + [d])| == |Turns(InRecovery, ds)| + if d.nextRecovery == STABILIZE then 1 else 0
    ensures |Turns(EntersRecovery, ds + [d])| == |Turns(EntersRecovery, ds)| +
            if d.nextRecovery == STABILIZE && (ds != [] ==> ds[|ds| - 1].nextRecovery == NORMAL) then 1 else 0
  {
    hide Turns;
    assert (ds + [d])[|ds|] == d && (ds != [] ==> (ds + [d])[|ds| - 1] == ds[|ds| - 1]);
    TurnsGrow(InRecovery, ds, d);
    TurnsGrow(EntersRecovery, ds, d);
  }

  lemma NoTurns(f: Feature)
    ensures Turns(f, []) == {}
  {
  }

  lemma DecidesRecovery(bank: seq<Question>, c: Context)
    requires IsBank(bank)
    ensures Decide(bank, c).nextRecovery == RecoveryOf(c).0 && (ProceduralUnblockFired in Decide(bank, c).applied <==> ProcFires(c))
  {
    hide RecoveryOf, ProcFires, Marks, PlanAfter, LadderOf, FsmOf, ClosureDirectives;
    ProcIsApplied(c);
  }

  lemma RecoveryLasts(c: Context)
    requires c.carry.recovery == STABILIZE ==> 1 <= c.carry.turnsInRecovery < MAX_RECOVERY_TURNS
    ensures RecoveryOf(c).0 == STABILIZE ==>
              RecoveryOf(c).1 == if c.carry.recovery == STABILIZE then c.carry.turnsInRecovery + 1 else 1
    ensures RecoveryOf(c).0 == STABILIZE ==> RecoveryOf(c).1 <= 3
  {
    hide ScoresOf, HighAffectCount;
  }

  /** At most one turn in three hands off a fact. */
  lemma UnblocksPerTurns(bank: seq<Question>, h: seq<Context>)
    requires IsBank(bank) && Run(bank, h)
    ensures 3 * |Turns(HandsOff, Decisions(bank, h))| <= |h| + 2
  {
    hide Run, Turns, Decisions, Shows;
    FiringRate(bank, h, HandOff, 0, |h|);
    assert h[0..|h|] == h;
    HandOffTurns(bank, h);
  }

  lemma {:induction false} HandOffTurns(bank: seq<Question>, h: seq<Context>)
    requires IsBank(bank)
    ensures |Turns(HandsOff, Decisions(bank, h))| == Times(HandOff, h)
  {
    hide Turns, Decide, ProcFires;
    if h != [] {
      var past, c := h[..|h| - 1], h[|h| - 1];
      HandOffTurns(bank, past);
      TurnsGrow(HandsOff, Decisions(bank, past), Decide(bank, c));
      assert (Decisions(bank, past) + [Decide(bank, c)])[|past|] == Decide(bank, c);
      DecidesRecovery(bank, c);
    } else {
      NoTurns(HandsOff);
    }
  }

  /** What the collector calls stuck is any procedural or answer request in the last four turns, not only a procedural
      one as its description has it. */
  lemma StuckMeansAnyRequest(window: seq<UserSignals>, current: UserSignals)
    ensures ProceduralBlock(window, current) > 0.0 <==>
            CountProcedural(ProceduralTurns(window, current)) + CountDirect(ProceduralTurns(window, current)) > 0
  {
    var recent := ProceduralTurns(window, current);
    var p, d, n := CountProcedural(recent), CountDirect(recent), |recent|;
    RateIff(p, d, n);
    PositiveRate(p, d, n);
  }

  lemma PositiveRate(p: nat, d: nat, n: nat)
    requires 1 <= n <= PROCEDURAL_BLOCK_WINDOW
    ensures 0.7 * (p as real / n as real) + 0.3 * (d as real / n as real) > 0.0 <==> p + d > 0
  {
  }

  lemma {:induction false} DecisionAt(bank: seq<Question>, h: seq<Context>, i: nat)
    requires IsBank(bank) && i < |h|
    ensures Decisions(bank, h)[i] == Decide(bank, h[i])
  {
    hide Decide;
    if i < |h| - 1 { DecisionAt(bank, h[..|h| - 1], i); }
  }

  /** Some procedural or answer request among the last four turns. */
  predicate RequestInView(c: Context) {
    CountProcedural(ProceduralTurns(c.window, c.signals)) + CountDirect(ProceduralTurns(c.window, c.signals)) > 0
  }

  /** The features of a turn of a run, in terms of what happened on it: the ladder always reports, so a turn is crowded as
      soon as any other rule does; a turn counts as miscalibrated only when it is a confident demand without an attempt. */
  lemma FeaturesOnRuns(bank: seq<Question>, h: seq<Context>, i: nat)
    requires IsBank(bank) && Run(bank, h) && i < |h|
    ensures var (ds, c) := (Decisions(bank, h), h[i]);
            && (forall r :: Has(OnRung(r), ds, i) <==> LadderOf(c).0 == r)
            && (Has(Crowded, ds, i) <==> Elicits(c) || c.asksForAnswer || ToneFires(c) || ProcFires(c))
            && (Has(Miscalibrated, ds, i) <==> Elicits(c) && c.signals.hedging < 0.1)
            && (Has(EntersRecovery, ds, i) <==> RecoveryOf(c).0 == STABILIZE && c.carry.recovery == NORMAL)
            && (Has(InRecovery, ds, i) <==> RecoveryOf(c).0 == STABILIZE)
            && (Has(HandsOff, ds, i) <==> ProcFires(c))
            && (Stuck(ds[i]) <==> RequestInView(c) && !ProcFires(c))
  {
    hide LadderOf, ProcFires, ToneFires, RecoveryOf, ProceduralBlock, HintAbuse, Struggle, CountProcedural, CountDirect, Run,
         ProceduralTurns, PlanAfter, Marks, FsmOf, ClosureEligible, ClosureDirectives, End, Decisions, CooldownNext;
    var c := h[i];
    DecisionAt(bank, h, i);
    DecidesRecovery(bank, c);
    RunStep(bank, h, i);
    StuckMeansAnyRequest(c.window, c.signals);
    MarksCount(c);
    if i > 0 {
      DecisionAt(bank, h, i - 1);
      LeavesRecovery(bank, h, i);
    } else {
      FreshIsNormal(bank, h);
    }
  }

  lemma MarksCount(c: Context)
    ensures |Marks(c, 5)| > 1 <==> Elicits(c) || c.asksForAnswer || ToneFires(c) || ProcFires(c)
  {
    hide Elicits, ToneFires, ProcFires, LadderOf, Marks;
    AllMarks(c);
  }

  lemma LeavesRecovery(bank: seq<Question>, h: seq<Context>, i: nat)
    requires IsBank(bank) && Run(bank, h) && 0 < i < |h|
    ensures h[i].carry.recovery == Decide(bank, h[i - 1]).nextRecovery
  {
    hide After, Run, Decide, RecoveryOf;
    RunStep(bank, h, i);
    RunStep(bank, h, i - 1);
    AfterFields(bank, h[i - 1]);
    DecidesRecovery(bank, h[i - 1]);
  }

  lemma FreshIsNormal(bank: seq<Question>, h: seq<Context>)
    requires IsBank(bank)
    ensures End(bank, h[..0]).recovery == NORMAL
  {
  }

  /** On a run, a stuck run is a stretch of turns with a request in view and no hand-off before its last turn. */
  lemma StuckRunOnRuns(bank: seq<Question>, h: seq<Context>, a: nat, b: nat)
    requires IsBank(bank) && Run(bank, h)
    ensures IsStuckRun(Decisions(bank, h), a, b) <==>
            && a < b <= |h| && (forall i | a <= i < b :: RequestInView(h[i]))
            && (forall i | a <= i < b - 1 :: !ProcFires(h[i]))
  {
    hide Decisions, Run, RequestInView, ProcFires, Stuck;
    if a < b <= |h| {
      forall i | a <= i < b
        ensures Stuck(Decisions(bank, h)[i]) <==> RequestInView(h[i]) && !ProcFires(h[i])
        ensures ProceduralUnblockFired in Decisions(bank, h)[i].applied <==> ProcFires(h[i])
        ensures ProcFires(h[i]) ==> RequestInView(h[i])
      {
        FeaturesOnRuns(bank, h, i);
        if ProcFires(h[i]) { HandOffHasRequest(h[i]); }
      }
    }
  }

  lemma HandOffHasRequest(c: Context)
    requires ProcFires(c)
    ensures RequestInView(c)
  {
    hide ProceduralStuck, ProceduralTurns, ProceduralBlock;
    HandOffIff(c);
    ProceduralStuckNeeds(c.window, c.signals);
  }
}
