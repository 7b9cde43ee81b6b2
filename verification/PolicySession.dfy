/** The policy state a chat session carries from turn to turn and across reconnects (session.py, persistence.py). */
module PolicySession {
  import opened Text
  import opened PolicyTypes
  import opened PolicyAutomata
  import opened Questions
  import opened Engine
  import opened PolicyRuns
  import opened Persistence

  const WINDOW := 10

  /** The fields a snapshot covers. */
  datatype PolicyState = PolicyState(
    carry: Carry,
    signalsWindow: seq<UserSignals>,
    lengthWindow: seq<int>,
    latencyWindow: seq<real>,
    lastResponse: Option<real>)

  const NEW_SESSION := PolicyState(FRESH, [], [], [], None)

  /** One user turn. `completes`: not cancelled, failed or dropped after the policy was evaluated. */
  datatype UserTurn = UserTurn(
    text: string,
    wordCount: int,
    arrivedAt: real,
    turnCount: nat,
    asksForAnswer: bool,
    completes: bool,
    finishedAt: real)

  /** Signal extraction: message, signals so far, last response, arrival, lengths, latencies. */
  type Extractor = (string, seq<UserSignals>, Option<real>, real, seq<int>, seq<real>) -> UserSignals

  /** What does not change during a session. */
  datatype Setup = Setup(bank: seq<Question>, activity: Option<ActivityRef>, extract: Extractor)

  function ContextOf(k: Setup, s: PolicyState, t: UserTurn): Context {
    var signals := k.extract(t.text, s.signalsWindow, s.lastResponse, t.arrivedAt, s.lengthWindow, s.latencyWindow);
    Context(s.carry, t.turnCount, t.asksForAnswer, signals, s.signalsWindow, k.activity)
  }

  /** None on a first turn. */
  function Latency(s: PolicyState, t: UserTurn): Option<real> {
    if s.lastResponse.None? then None
    else Some(if t.arrivedAt - s.lastResponse.value > 0.0 then t.arrivedAt - s.lastResponse.value else 0.0)
  }

  /** The windows grow once the policy was evaluated; the rest only when the turn completes. */
  function TurnStep(k: Setup, s: PolicyState, t: UserTurn): PolicyState
    requires IsBank(k.bank)
  {
    var c := ContextOf(k, s, t);
    PolicyState(
      if t.completes then After(k.bank, c) else s.carry,
      LastN(s.signalsWindow + [c.signals], WINDOW),
      LastN(s.lengthWindow + [t.wordCount], WINDOW),
      if Latency(s, t).None? then s.latencyWindow else LastN(s.latencyWindow + [Latency(s, t).value], WINDOW),
      if t.completes then Some(t.finishedAt) else s.lastResponse)
  }

  function SnapshotOf(s: PolicyState): Snapshot {
    Snapshot(CURRENT_VERSION, s.carry, s.signalsWindow, s.lengthWindow, s.latencyWindow, s.lastResponse)
  }

  /** What the row holds after a turn: a completed one stores its state before the time of its response is noted, an
      abandoned one stores nothing. */
  function StoredAfter(k: Setup, s: PolicyState, stored: map<Key, Json>, t: UserTurn): map<Key, Json>
    requires IsBank(k.bank)
  {
    if t.completes then Serialize(SnapshotOf(TurnStep(k, s, t).(lastResponse := s.lastResponse))) else stored
  }

  /** A new connection over the stored form: a session starts fresh when nothing can be read. */
  function Restored(blob: map<Key, Json>): PolicyState {
    match Deserialize(blob)
    case None => NEW_SESSION
    case Some(x) => PolicyState(x.carry, x.signalsWindow, x.lengthWindow, x.latencyWindow, x.lastResponse)
  }

  // ----- the session in place -----

  class ChatSession {
    const setup: Setup
    var fsm: FsmState
    var recentQuestionIds: seq<string>
    var hint: Rung
    var turnsInHint: nat
    var lowStreak: nat
    var recovery: Recovery
    var turnsInRecovery: nat
    var sinceMeta: nat
    var sinceProc: nat
    var signalsWindow: seq<UserSignals>
    var lengthWindow: seq<int>
    var latencyWindow: seq<real>
    var lastResponse: Option<real>
    var stored: map<Key, Json>

    /** A connection to the row holding `stored`. */
    constructor (setup: Setup, stored: map<Key, Json>)
      ensures this.setup == setup && this.stored == stored && View() == Restored(stored)
    {
      this.setup, this.stored := setup, stored;
      fsm, recentQuestionIds, hint, turnsInHint, lowStreak := PLANNING, [], PROCESS_FEEDBACK, 0, 0;
      recovery, turnsInRecovery, sinceMeta, sinceProc := NORMAL, 0, 99, 99;
      signalsWindow, lengthWindow, latencyWindow, lastResponse := [], [], [], None;
      new;
      hide Deserialize;
      match Deserialize(stored)
      case None =>
      case Some(x) => ApplySnapshot(x);
    }

    function CarryView(): Carry
      reads this`fsm, this`recentQuestionIds, this`hint, this`turnsInHint, this`lowStreak, this`recovery,
            this`turnsInRecovery, this`sinceMeta, this`sinceProc
    {
      Carry(fsm, recentQuestionIds, hint, turnsInHint, lowStreak, recovery, turnsInRecovery, sinceMeta, sinceProc)
    }

    function View(): PolicyState
      reads this
    {
      PolicyState(CarryView(), signalsWindow, lengthWindow, latencyWindow, lastResponse)
    }

    method SetCarry(c: Carry)
      modifies this`fsm, this`recentQuestionIds, this`hint, this`turnsInHint, this`lowStreak, this`recovery,
               this`turnsInRecovery, this`sinceMeta, this`sinceProc
      ensures CarryView() == c
    {
      fsm, recentQuestionIds, hint, turnsInHint, lowStreak := c.fsm, c.recentIds, c.hint, c.turnsInHint, c.lowStreak;
      recovery, turnsInRecovery, sinceMeta, sinceProc := c.recovery, c.turnsInRecovery, c.sinceMeta, c.sinceProc;
    }

    method ApplySnapshot(x: Snapshot)
      modifies this
      ensures View() == PolicyState(x.carry, x.signalsWindow, x.lengthWindow, x.latencyWindow, x.lastResponse)
      ensures stored == old(stored)
    {
      hide CarryView;
      signalsWindow, lengthWindow, latencyWindow := x.signalsWindow, x.lengthWindow, x.latencyWindow;
      lastResponse := x.lastResponse;
      SetCarry(x.carry);
    }

    method PersistPolicyState()
      modifies this`stored
      ensures stored == Serialize(SnapshotOf(View()))
    {
      stored := Serialize(SnapshotOf(View()));
    }

    /** Evaluates the policy, grows the windows, and commits unless the turn is abandoned. The snapshot is stored before
        the response time is noted. */
    method ProcessTurn(t: UserTurn) returns (d: Decision)
      requires IsBank(setup.bank)
      modifies this
      ensures d == Decide(setup.bank, ContextOf(setup, old(View()), t))
      ensures View() == TurnStep(setup, old(View()), t)
      ensures stored == StoredAfter(setup, old(View()), old(stored), t)
    {
      hide Decide, LastN, Serialize, CarryView, IsBank, After, Latency;
      ghost var before := View();
      var signals := setup.extract(t.text, signalsWindow, lastResponse, t.arrivedAt, lengthWindow, latencyWindow);
      var c := Context(CarryView(), t.turnCount, t.asksForAnswer, signals, signalsWindow, setup.activity);
      assert c == ContextOf(setup, before, t);
      d := EvaluatePolicy(c);
      GrowWindows(signals, t);
      if t.completes { Complete(d, c, t.finishedAt); }
    }

    method EvaluatePolicy(c: Context) returns (d: Decision)
      requires IsBank(setup.bank)
      ensures d == Decide(setup.bank, c)
    {
      hide Decide, IsBank;
      var ctx := new PolicyContext(c);
      d := Evaluate(setup.bank, ctx);
    }

    /** Commits, stores, and only then notes when the response was finished. */
    method Complete(d: Decision, ghost c: Context, finishedAt: real)
      requires IsBank(setup.bank) && d == Decide(setup.bank, c) && CarryView() == c.carry
      modifies this
      ensures View() == old(View()).(carry := After(setup.bank, c), lastResponse := Some(finishedAt))
      ensures stored == Serialize(SnapshotOf(View().(lastResponse := old(lastResponse))))
    {
      hide Decide, Serialize, IsBank;
      Commit(d, c);
      PersistPolicyState();
      lastResponse := Some(finishedAt);
    }

    method GrowWindows(signals: UserSignals, t: UserTurn)
      modifies this`signalsWindow, this`lengthWindow, this`latencyWindow
      ensures signalsWindow == LastN(old(signalsWindow) + [signals], WINDOW)
      ensures lengthWindow == LastN(old(lengthWindow) + [t.wordCount], WINDOW)
      ensures latencyWindow == match Latency(old(View()), t)
                               case None => old(latencyWindow)
                               case Some(observed) => LastN(old(latencyWindow) + [observed], WINDOW)
    {
      hide LastN;
      signalsWindow := LastN(signalsWindow + [signals], WINDOW);
      lengthWindow := LastN(lengthWindow + [t.wordCount], WINDOW);
      if lastResponse.Some? {
        var observed := if t.arrivedAt - lastResponse.value > 0.0 then t.arrivedAt - lastResponse.value else 0.0;
        latencyWindow := LastN(latencyWindow + [observed], WINDOW);
      }
    }

    method Commit(d: Decision, ghost c: Context)
      requires IsBank(setup.bank) && d == Decide(setup.bank, c) && CarryView() == c.carry
      modifies this`fsm, this`recentQuestionIds, this`hint, this`turnsInHint, this`lowStreak, this`recovery,
               this`turnsInRecovery, this`sinceMeta, this`sinceProc
      ensures CarryView() == After(setup.bank, c)
    {
      hide Decide, IsBank;
      SetCarry(Carry(d.nextState, recentQuestionIds + [d.plan.questionId], d.nextHint, d.nextTurnsInHint,
                     d.nextLowStreak, d.nextRecovery, d.nextTurnsInRecovery, d.nextSinceMeta, d.nextSinceProc));
    }
  }

  // ----- reconnects -----

  lemma RestoreIsIdentity(s: PolicyState)
    ensures Restored(Serialize(SnapshotOf(s))) == s
  {
    hide Serialize, Deserialize;
    RoundTrip(SnapshotOf(s));
  }

  /** What cannot be read, from no row to a malformed or newer one, starts the session afresh; whatever fields a readable
      one lacks start at those values too. */
  lemma UnreadableStartsFresh(blob: map<Key, Json>)
    ensures Deserialize(blob).None? ==>
              Restored(blob) == PolicyState(Carry(PLANNING, [], PROCESS_FEEDBACK, 0, 0, NORMAL, 0, 99, 99), [], [], [], None)
    ensures Deserialize(map[]).None?
  {
    hide Validate;
  }

  /** What a connection sees: user turns, and reconnects at turn boundaries. */
  datatype Event = Turn(turn: UserTurn) | Reconnect

  function After1(k: Setup, s: PolicyState, e: Event): PolicyState
    requires IsBank(k.bank)
  {
    match e case Turn(t) => TurnStep(k, s, t) case Reconnect => Restored(Serialize(SnapshotOf(s)))
  }

  function Play(k: Setup, es: seq<Event>): PolicyState
    requires IsBank(k.bank)
  {
    if es == [] then NEW_SESSION else After1(k, Play(k, es[..|es| - 1]), es[|es| - 1])
  }

  /** The context of every turn, in order. */
  function Contexts(k: Setup, es: seq<Event>): seq<Context>
    requires IsBank(k.bank)
  {
    if es == [] then []
    else
      var past := es[..|es| - 1];
      match es[|es| - 1]
      case Turn(t) => Contexts(k, past) + [ContextOf(k, Play(k, past), t)]
      case Reconnect => Contexts(k, past)
  }

  function OnlyTurns(es: seq<Event>): seq<Event> {
    if es == [] then []
    else OnlyTurns(es[..|es| - 1]) + if es[|es| - 1].Turn? then [es[|es| - 1]] else []
  }

  lemma PlaySnoc(k: Setup, es: seq<Event>, e: Event)
    requires IsBank(k.bank)
    ensures Play(k, es + [e]) == After1(k, Play(k, es), e)
    ensures Contexts(k, es + [e]) ==
            match e case Turn(t) => Contexts(k, es) + [ContextOf(k, Play(k, es), t)] case Reconnect => Contexts(k, es)
  {
    hide After1, ContextOf;
    assert (es + [e])[..|es|] == es;
  }

  /** A session cut by any number of reconnects decides exactly what the uncut one decides. */
  lemma {:induction false} ReconnectsAreTransparent(k: Setup, es: seq<Event>)
    requires IsBank(k.bank)
    ensures Play(k, es) == Play(k, OnlyTurns(es)) && Contexts(k, es) == Contexts(k, OnlyTurns(es))
  {
    hide TurnStep, ContextOf, Restored, IsBank;
    if es != [] {
      var past, e := es[..|es| - 1], es[|es| - 1];
      ReconnectsAreTransparent(k, past);
      assert past + [e] == es;
      PlaySnoc(k, past, e);
      match e
      case Turn(_) => PlaySnoc(k, OnlyTurns(past), e);
      case Reconnect =>
        RestoreIsIdentity(Play(k, past));
        assert OnlyTurns(past) + [] == OnlyTurns(past);
    }
  }

  /** A connection lost without its wrap-up after a completed turn comes back with all but the time of the last
      response, which is still that of the response before: nothing is lost exactly when the two times agree. */
  lemma LostAfterCompletedIff(k: Setup, s: PolicyState, stored: map<Key, Json>, t: UserTurn)
    requires IsBank(k.bank) && t.completes
    ensures var back := Restored(StoredAfter(k, s, stored, t));
            && back == TurnStep(k, s, t).(lastResponse := s.lastResponse)
            && (back == TurnStep(k, s, t) <==> s.lastResponse == Some(t.finishedAt))
  {
    hide Serialize, Restored, LastN, After, IsBank;
    RestoreIsIdentity(TurnStep(k, s, t).(lastResponse := s.lastResponse));
  }

  /** A full window that already holds nothing but `x`. */
  predicate Saturated<T(==)>(w: seq<T>, x: T) {
    |w| == WINDOW && forall i | 0 <= i < WINDOW :: w[i] == x
  }

  /** After an abandoned turn it comes back without what the turn added to the windows. The row holds the state up to a
      response time: nothing is lost exactly when that time is right and every window the turn grew was already full of
      the same value. */
  lemma LostAfterAbandonedIff(k: Setup, s: PolicyState, stored: map<Key, Json>, t: UserTurn, known: Option<real>)
    requires IsBank(k.bank) && !t.completes && Restored(stored) == s.(lastResponse := known)
    ensures Restored(StoredAfter(k, s, stored, t)) == TurnStep(k, s, t) <==>
            && known == s.lastResponse
            && Saturated(s.signalsWindow, ContextOf(k, s, t).signals)
            && Saturated(s.lengthWindow, t.wordCount)
            && (Latency(s, t).Some? ==> Saturated(s.latencyWindow, Latency(s, t).value))
  {
    hide Serialize, Restored, LastN, After, IsBank, Latency, Saturated;
    SaturatedIff(s.signalsWindow, ContextOf(k, s, t).signals);
    SaturatedIff(s.lengthWindow, t.wordCount);
    if Latency(s, t).Some? { SaturatedIff(s.latencyWindow, Latency(s, t).value); }
  }

  /** What the row holds along a session. */
  function Row(k: Setup, es: seq<Event>): map<Key, Json>
    requires IsBank(k.bank)
  {
    if es == [] then map[]
    else
      var past := es[..|es| - 1];
      match es[|es| - 1]
      case Turn(t) => StoredAfter(k, Play(k, past), Row(k, past), t)
      case Reconnect => Serialize(SnapshotOf(Play(k, past)))
  }

  /** Unless its last turn was abandoned, the row holds a session's state up to the response time, as assumed above. */
  lemma RowHoldsState(k: Setup, es: seq<Event>)
    requires IsBank(k.bank)
    requires es == [] || es[|es| - 1].Reconnect? || es[|es| - 1].turn.completes
    ensures Restored(Row(k, es)) == Play(k, es).(lastResponse := Restored(Row(k, es)).lastResponse)
  {
    hide Serialize, Validate, LastN, After, IsBank, TurnStep;
    if es != [] {
      hide Restored;
      var past := es[..|es| - 1];
      match es[|es| - 1]
      case Turn(t) => LostAfterCompletedIff(k, Play(k, past), Row(k, past), t);
      case Reconnect => RestoreIsIdentity(Play(k, past));
    }
  }

  lemma SaturatedIff<T>(w: seq<T>, x: T)
    ensures LastN(w + [x], WINDOW) == w <==> Saturated(w, x)
  {
    if LastN(w + [x], WINDOW) == w && |w| == WINDOW {
      forall i | 0 <= i < WINDOW ensures w[i] == x { Shifted(w, x, i); }
    }
  }

  lemma {:induction false} Shifted<T>(w: seq<T>, x: T, i: nat)
    requires |w| == WINDOW && LastN(w + [x], WINDOW) == w && i < WINDOW
    ensures w[i] == x
    decreases WINDOW - i
  {
    assert LastN(w + [x], WINDOW)[i] == (w + [x])[i + 1];
    if i + 1 < WINDOW { Shifted(w, x, i + 1); }
  }

  // ----- windows and runs -----

  lemma LastNSnoc<T>(s: seq<T>, x: T, n: nat)
    requires n >= 1
    ensures LastN(LastN(s, n) + [x], n) == LastN(s + [x], n)
  {
  }

  function AllSignals(h: seq<Context>): seq<UserSignals> {
    if h == [] then [] else AllSignals(h[..|h| - 1]) + [h[|h| - 1].signals]
  }

  /** The signals window is the last ten of all signals, abandoned turns included. */
  lemma {:induction false} WindowIsRecentSignals(k: Setup, es: seq<Event>)
    requires IsBank(k.bank)
    ensures Play(k, es).signalsWindow == LastN(AllSignals(Contexts(k, es)), WINDOW)
  {
    hide LastN, After, Restored, IsBank, Play, Contexts, AllSignals, ContextOf;
    if es == [] {
      NothingPlayed(k);
    } else {
      var past := es[..|es| - 1];
      WindowIsRecentSignals(k, past);
      assert past + [es[|es| - 1]] == es;
      PlaySnoc(k, past, es[|es| - 1]);
      match es[|es| - 1]
      case Turn(t) =>
        SignalsSnoc(Contexts(k, past), ContextOf(k, Play(k, past), t));
        LastNSnoc(AllSignals(Contexts(k, past)), ContextOf(k, Play(k, past), t).signals, WINDOW);
      case Reconnect => RestoreIsIdentity(Play(k, past));
    }
  }

  /** The word counts of all turns. */
  function WordCounts(es: seq<Event>): seq<int> {
    if es == [] then []
    else match es[|es| - 1]
      case Turn(t) => WordCounts(es[..|es| - 1]) + [t.wordCount]
      case Reconnect => WordCounts(es[..|es| - 1])
  }

  /** When the last completed turn was answered. */
  function LastFinish(es: seq<Event>): Option<real> {
    if es == [] then None
    else match es[|es| - 1]
      case Turn(t) => if t.completes then Some(t.finishedAt) else LastFinish(es[..|es| - 1])
      case Reconnect => LastFinish(es[..|es| - 1])
  }

  /** How long each message came after that, none before the first answer and never negative. */
  function Latencies(es: seq<Event>): seq<real> {
    if es == [] then []
    else
      var past := es[..|es| - 1];
      match es[|es| - 1]
      case Turn(t) =>
        if LastFinish(past).None? then Latencies(past)
        else if t.arrivedAt < LastFinish(past).value then Latencies(past) + [0.0]
        else Latencies(past) + [t.arrivedAt - LastFinish(past).value]
      case Reconnect => Latencies(past)
  }

  lemma {:induction false} ResponseIsLastFinish(k: Setup, es: seq<Event>)
    requires IsBank(k.bank)
    ensures Play(k, es).lastResponse == LastFinish(es)
  {
    hide LastN, After, Restored, IsBank, ContextOf, Latency;
    if es != [] {
      var past := es[..|es| - 1];
      ResponseIsLastFinish(k, past);
      if es[|es| - 1].Reconnect? { RestoreIsIdentity(Play(k, past)); }
    }
  }

  /** The length window is the last ten of all word counts. */
  lemma {:induction false} WindowIsRecentLengths(k: Setup, es: seq<Event>)
    requires IsBank(k.bank)
    ensures Play(k, es).lengthWindow == LastN(WordCounts(es), WINDOW)
  {
    hide LastN, After, Restored, IsBank, ContextOf, Latency;
    if es == [] {
      LastOfNothing<int>();
    } else {
      var past := es[..|es| - 1];
      WindowIsRecentLengths(k, past);
      match es[|es| - 1]
      case Turn(t) => LastNSnoc(WordCounts(past), t.wordCount, WINDOW);
      case Reconnect => RestoreIsIdentity(Play(k, past));
    }
  }

  /** The latency window is the last ten of all observed latencies, abandoned turns and reconnects included. */
  lemma {:induction false} WindowIsRecentLatencies(k: Setup, es: seq<Event>)
    requires IsBank(k.bank)
    ensures Play(k, es).latencyWindow == LastN(Latencies(es), WINDOW)
  {
    hide LastN, After, Restored, IsBank, ContextOf;
    if es == [] {
      LastOfNothing<real>();
    } else {
      var past := es[..|es| - 1];
      WindowIsRecentLatencies(k, past);
      ResponseIsLastFinish(k, past);
      match es[|es| - 1]
      case Turn(t) =>
        if LastFinish(past).Some? { LastNSnoc(Latencies(past), Latency(Play(k, past), t).value, WINDOW); }
      case Reconnect => RestoreIsIdentity(Play(k, past));
    }
  }

  lemma LastOfNothing<T>()
    ensures LastN<T>([], WINDOW) == []
  {
  }

  lemma SignalsSnoc(h: seq<Context>, c: Context)
    ensures AllSignals(h + [c]) == AllSignals(h) + [c.signals]
  {
    assert (h + [c])[..|h|] == h;
  }

  lemma NothingPlayed(k: Setup)
    requires IsBank(k.bank)
    ensures Play(k, []).signalsWindow == LastN(AllSignals(Contexts(k, [])), WINDOW)
  {
  }

  /** The contexts of the turns that completed. */
  function Committed(k: Setup, es: seq<Event>): seq<Context>
    requires IsBank(k.bank)
  {
    if es == [] then []
    else
      var past := es[..|es| - 1];
      match es[|es| - 1]
      case Turn(t) => if t.completes then Committed(k, past) + [ContextOf(k, Play(k, past), t)] else Committed(k, past)
      case Reconnect => Committed(k, past)
  }

  /** Whatever is abandoned or reconnected in between, the completed turns are a run of the policy, so everything proved
      of runs holds of sessions. */
  lemma {:induction false} SessionsAreRuns(k: Setup, es: seq<Event>)
    requires IsBank(k.bank)
    ensures Run(k.bank, Committed(k, es)) && Play(k, es).carry == End(k.bank, Committed(k, es))
  {
    hide Run, End, After, Restored, IsBank, LastN;
    if es == [] {
      EmptyRun(k.bank);
    } else {
      var past := es[..|es| - 1];
      SessionsAreRuns(k, past);
      match es[|es| - 1]
      case Turn(t) => if t.completes { RunGrows(k.bank, Committed(k, past), ContextOf(k, Play(k, past), t)); }
      case Reconnect => RestoreIsIdentity(Play(k, past));
    }
  }

  /** What the policy is evaluated on, in any session: the carried values of the completed turns, the last ten signals of
      all turns, and signals extracted against the histories of signals, word counts, latencies and answers. */
  lemma PolicySeesHistory(k: Setup, es: seq<Event>, t: UserTurn)
    requires IsBank(k.bank)
    ensures var recent := LastN(AllSignals(Contexts(k, es)), 10);
            ContextOf(k, Play(k, es), t) ==
            Context(End(k.bank, Committed(k, es)), t.turnCount, t.asksForAnswer,
                    k.extract(t.text, recent, LastFinish(es), t.arrivedAt, LastN(WordCounts(es), 10),
                              LastN(Latencies(es), 10)),
                    recent, k.activity)
  {
    hide LastN, IsBank, Play, Contexts, AllSignals, End, Committed, LastFinish, WordCounts, Latencies, Run;
    SessionsAreRuns(k, es);
    WindowIsRecentSignals(k, es);
    WindowIsRecentLengths(k, es);
    WindowIsRecentLatencies(k, es);
    ResponseIsLastFinish(k, es);
  }

  /** So in every session each turn is judged against the last ten signals before it, abandoned turns and reconnects
      included. */
  lemma {:induction false} ContextsSeeRecentSignals(k: Setup, es: seq<Event>, i: nat)
    requires IsBank(k.bank) && i < |Contexts(k, es)|
    ensures Contexts(k, es)[i].window == LastN(AllSignals(Contexts(k, es)[..i]), 10)
  {
    hide LastN, IsBank, Play, AllSignals, ContextOf, LastFinish, WordCounts, Latencies;
    var past := es[..|es| - 1];
    var before := Contexts(k, past);
    match es[|es| - 1]
    case Turn(t) =>
      if i < |before| {
        ContextsSeeRecentSignals(k, past, i);
        assert Contexts(k, es)[..i] == before[..i];
      } else {
        PolicySeesHistory(k, past, t);
        assert Contexts(k, es)[..i] == before;
      }
    case Reconnect => ContextsSeeRecentSignals(k, past, i);
  }

  lemma EmptyRun(bank: seq<Question>)
    requires IsBank(bank)
    ensures Run(bank, []) && End(bank, []) == FRESH
  {
  }
}
