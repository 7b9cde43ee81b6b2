/** The receive loop, its one background turn, cancellation, interrupt-and-bundle and the done-callback (session.py).
    One event is one uninterrupted stretch between two awaits, of the loop or of a turn. */
module TurnProtocol {
  import opened Text

  // ----- state -----

  /** `superseded`: cancelled because a new message arrived, so that its text is carried forward. */
  datatype Status = Running | Cancelling(superseded: bool) | Done(superseded: bool)

  datatype Turn = Turn(text: string, status: Status, calledBack: bool)

  /** Where the loop is parked. */
  datatype Pc =
    | Receiving
    | SendingError
    | AwaitCancelled(i: nat)
    | SendingCancelled
    | AwaitIdle(i: nat)
    | AwaitInterrupted(i: nat, msg: string)
    | SendingInterrupted(msg: string)
    | Draining(i: nat)
    | Exited(byBreak: bool)

  /** History: a message accepted for a turn, and a turn over that no message superseded. */
  datatype Entry = Accepted(msg: string) | CleanEnd

  datatype State = State(
    pc: Pc,
    turns: seq<Turn>,
    active: Option<nat>,
    interrupt: bool,
    current: Option<string>,
    prefix: string,
    shouldClose: bool,
    log: seq<Entry>)

  datatype Frame = CancelTurn | Message(text: string) | Unknown

  datatype Event =
    | Arrives(frame: Frame)
    | IdleTimeout
    | Disconnect
    | Resume
    | Finishes(i: nat)
    | ArmsClose(i: nat)
    | Unwinds(i: nat)
    | CallsBack(i: nat)

  // ----- one step -----

  predicate IsDone(s: State, i: nat) {
    i < |s.turns| && s.turns[i].status.Done?
  }

  /** A turn is registered and not over. */
  predicate Busy(s: State) {
    s.active.Some? && s.active.value < |s.turns| && !IsDone(s, s.active.value)
  }

  function Drain(s: State): State {
    s.(pc := if Busy(s) then Draining(s.active.value) else Exited(true))
  }

  /** Back to the head of the loop. */
  function Top(s: State): State {
    if s.shouldClose then Drain(s) else s.(pc := Receiving)
  }

  function SetStatus(s: State, i: nat, status: Status): State
    requires i < |s.turns|
  {
    s.(turns := s.turns[i := s.turns[i].(status := status)])
  }

  function Bundled(prefix: string, msg: string): string {
    if prefix == "" then msg else prefix + "\n" + msg
  }

  function Spawn(s: State, msg: string): State {
    var text := Bundled(s.prefix, msg);
    s.(turns := s.turns + [Turn(text, Running, false)], active := Some(|s.turns|), current := Some(text), prefix := "",
       interrupt := false)
  }

  function OnMessage(s: State, msg: string): State {
    var a := s.(log := s.log + [Accepted(msg)]);
    if Busy(s) then
      var i := s.active.value;
      SetStatus(a, i, Cancelling(true)).(interrupt := true, prefix := if s.current.Some? then s.current.value else "",
                                         pc := AwaitInterrupted(i, msg))
    else Top(Spawn(a, msg))
  }

  function OnFrame(s: State, frame: Frame): State {
    if s.shouldClose then Drain(s)
    else match frame
      case CancelTurn =>
        if Busy(s) then SetStatus(s, s.active.value, Cancelling(false)).(pc := AwaitCancelled(s.active.value)) else Top(s)
      case Message(raw) => if Strip(raw) == "" then s.(pc := SendingError) else OnMessage(s, Strip(raw))
      case Unknown => s.(pc := SendingError)
  }

  function OnIdle(s: State): State {
    if Busy(s) then SetStatus(s, s.active.value, Cancelling(false)).(pc := AwaitIdle(s.active.value))
    else s.(pc := Exited(true))
  }

  /** What the loop was waiting for has happened. */
  function OnResume(s: State): State {
    match s.pc
    case SendingError => Top(s)
    case SendingCancelled => Top(s)
    case SendingInterrupted(msg) => Top(Spawn(s, msg))
    case AwaitCancelled(i) => if IsDone(s, i) then s.(pc := SendingCancelled) else s
    case AwaitInterrupted(i, msg) => if IsDone(s, i) then s.(pc := SendingInterrupted(msg)) else s
    case AwaitIdle(i) => if IsDone(s, i) then s.(pc := Exited(true)) else s
    case Draining(i) => if IsDone(s, i) then s.(pc := Exited(true)) else s
    case _ => s
  }

  function Ends(s: State, i: nat): State
    requires i < |s.turns|
  {
    match s.turns[i].status
    case Running => SetStatus(s, i, Done(false)).(log := s.log + [CleanEnd])
    case Cancelling(superseded) =>
      SetStatus(s, i, Done(superseded)).(log := if superseded then s.log else s.log + [CleanEnd])
    case Done(_) => s
  }

  /** The done-callback: only the registered turn is unregistered. */
  function OnTurnDone(s: State, i: nat): State
    requires i < |s.turns|
  {
    var called := s.(turns := s.turns[i := s.turns[i].(calledBack := true)]);
    if s.active == Some(i) then called.(active := None, current := None) else called
  }

  /** An event that cannot happen in a state leaves it as it is. */
  function Step(s: State, e: Event): State {
    match e
    case Arrives(frame) => if s.pc == Receiving then OnFrame(s, frame) else s
    case IdleTimeout => if s.pc == Receiving then OnIdle(s) else s
    case Disconnect => if s.pc == Receiving then s.(pc := Exited(false)) else s
    case Resume => OnResume(s)
    case Finishes(i) => if i < |s.turns| && s.turns[i].status == Running then Ends(s, i) else s
    case Unwinds(i) => if i < |s.turns| && s.turns[i].status.Cancelling? then Ends(s, i) else s
    case ArmsClose(i) => if i < |s.turns| && s.turns[i].status == Running then s.(shouldClose := true) else s
    case CallsBack(i) => if IsDone(s, i) && !s.turns[i].calledBack then OnTurnDone(s, i) else s
  }

  function Start(shouldClose: bool): State {
    Top(State(Receiving, [], None, false, None, "", shouldClose, []))
  }

  function Reach(s: State, es: seq<Event>): State {
    if es == [] then s else Step(Reach(s, es[..|es| - 1]), es[|es| - 1])
  }

  // ----- the loop in place -----

  class SessionLoop {
    var pc: Pc
    var turns: seq<Turn>
    var activeTurnTask: Option<nat>
    var interruptRequested: bool
    var currentTurnText: Option<string>
    var pendingPrefix: string
    var shouldClose: bool
    ghost var log: seq<Entry>

    constructor (closing: bool)
      ensures View() == Start(closing)
    {
      pc, turns, activeTurnTask, interruptRequested := Receiving, [], None, false;
      currentTurnText, pendingPrefix, shouldClose, log := None, "", closing, [];
      new;
      HeadOfLoop();
    }

    ghost function View(): State
      reads this
    {
      State(pc, turns, activeTurnTask, interruptRequested, currentTurnText, pendingPrefix, shouldClose, log)
    }

    predicate TurnIsBusy()
      reads this
    {
      activeTurnTask.Some? && activeTurnTask.value < |turns| && !turns[activeTurnTask.value].status.Done?
    }

    method DrainActiveTurn()
      modifies this`pc
      ensures View() == Drain(old(View()))
    {
      if TurnIsBusy() { pc := Draining(activeTurnTask.value); } else { pc := Exited(true); }
    }

    method HeadOfLoop()
      modifies this`pc
      ensures View() == Top(old(View()))
    {
      if shouldClose { DrainActiveTurn(); } else { pc := Receiving; }
    }

    method RequestCancel(superseded: bool)
      requires TurnIsBusy()
      modifies this`turns
      ensures View() == SetStatus(old(View()), activeTurnTask.value, Cancelling(superseded))
    {
      var i := activeTurnTask.value;
      turns := turns[i := turns[i].(status := Cancelling(superseded))];
    }

    method CreateTurn(text: string)
      modifies this
      ensures View() == Spawn(old(View()), text)
    {
      var bundled := if pendingPrefix != "" then pendingPrefix + "\n" + text else text;
      pendingPrefix, interruptRequested, currentTurnText := "", false, Some(bundled);
      turns := turns + [Turn(bundled, Running, false)];
      activeTurnTask := Some(|turns| - 1);
    }

    method FrameArrives(frame: Frame)
      requires pc == Receiving
      modifies this
      ensures View() == Step(old(View()), Arrives(frame))
    {
      hide Strip;
      if shouldClose {
        DrainActiveTurn();
        return;
      }
      match frame
      case CancelTurn =>
        if TurnIsBusy() {
          pc := AwaitCancelled(activeTurnTask.value);
          RequestCancel(false);
        } else {
          HeadOfLoop();
        }
      case Message(raw) =>
        var text := Strip(raw);
        if text == "" { pc := SendingError; } else { MessageArrives(text); }
      case Unknown => pc := SendingError;
    }

    method MessageArrives(text: string)
      requires pc == Receiving
      modifies this
      ensures View() == OnMessage(old(View()), text)
    {
      log := log + [Accepted(text)];
      if TurnIsBusy() {
        interruptRequested := true;
        pendingPrefix := if currentTurnText.Some? then currentTurnText.value else "";
        pc := AwaitInterrupted(activeTurnTask.value, text);
        RequestCancel(true);
      } else {
        CreateTurn(text);
        HeadOfLoop();
      }
    }

    method IdleTimesOut()
      requires pc == Receiving
      modifies this
      ensures View() == Step(old(View()), IdleTimeout)
    {
      if TurnIsBusy() {
        pc := AwaitIdle(activeTurnTask.value);
        RequestCancel(false);
      } else {
        pc := Exited(true);
      }
    }

    method Disconnects()
      requires pc == Receiving
      modifies this`pc
      ensures View() == Step(old(View()), Disconnect)
    {
      pc := Exited(false);
    }

    /** The awaited turn is over, or the frame has been sent. */
    method Continue()
      requires pc.AwaitCancelled? || pc.AwaitIdle? || pc.AwaitInterrupted? || pc.Draining? ==>
                 pc.i < |turns| && turns[pc.i].status.Done?
      modifies this
      ensures View() == Step(old(View()), Resume)
    {
      match pc
      case SendingError => HeadOfLoop();
      case SendingCancelled => HeadOfLoop();
      case SendingInterrupted(msg) =>
        CreateTurn(msg);
        HeadOfLoop();
      case AwaitCancelled(_) => pc := SendingCancelled;
      case AwaitInterrupted(_, msg) => pc := SendingInterrupted(msg);
      case AwaitIdle(_) => pc := Exited(true);
      case Draining(_) => pc := Exited(true);
      case _ =>
    }

    method TurnEnds(i: nat)
      requires i < |turns| && !turns[i].status.Done?
      modifies this`turns, this`log
      ensures View() == Step(old(View()), if old(turns[i].status.Running?) then Finishes(i) else Unwinds(i))
    {
      var superseded := turns[i].status.Cancelling? && turns[i].status.superseded;
      if !superseded { log := log + [CleanEnd]; }
      turns := turns[i := turns[i].(status := Done(superseded))];
    }

    /** Arms the loop guard; the turn itself goes on to close the socket. */
    method TurnArmsClose(i: nat)
      requires i < |turns| && turns[i].status.Running?
      modifies this`shouldClose
      ensures View() == Step(old(View()), ArmsClose(i))
    {
      shouldClose := true;
    }

    method TurnCallsBack(i: nat)
      requires i < |turns| && turns[i].status.Done? && !turns[i].calledBack
      modifies this
      ensures View() == Step(old(View()), CallsBack(i))
    {
      turns := turns[i := turns[i].(calledBack := true)];
      if activeTurnTask == Some(i) {
        activeTurnTask, currentTurnText := None, None;
      }
    }
  }

  // ----- what the history says -----

  function JoinLines(msgs: seq<string>): string {
    if msgs == [] then "" else if |msgs| == 1 then msgs[0] else JoinLines(msgs[..|msgs| - 1]) + "\n" + msgs[|msgs| - 1]
  }

  /** Messages accepted since the last turn that ended without a message interrupt. */
  function Open(log: seq<Entry>): seq<string> {
    if log == [] then []
    else match log[|log| - 1]
      case Accepted(msg) => Open(log[..|log| - 1]) + [msg]
      case CleanEnd => []
  }

  /** The messages of each earlier stretch, joined. */
  function Closed(log: seq<Entry>): seq<string> {
    if log == [] then []
    else match log[|log| - 1]
      case Accepted(_) => Closed(log[..|log| - 1])
      case CleanEnd => Closed(log[..|log| - 1]) + [JoinLines(Open(log[..|log| - 1]))]
  }

  /** Texts of the turns that ended without being superseded, in the order they were started. */
  function Survivors(turns: seq<Turn>): seq<string> {
    if turns == [] then []
    else
      var t := turns[|turns| - 1];
      Survivors(turns[..|turns| - 1]) + if t.status == Done(false) then [t.text] else []
  }

  // ----- the invariant -----

  /** Every turn but the newest is over. */
  predicate OnlyLastLives(turns: seq<Turn>) {
    forall i | 0 <= i < |turns| - 1 :: turns[i].status.Done?
  }

  /** Status of the newest turn, over when there is none. */
  function LastStatus(turns: seq<Turn>): Status {
    if turns == [] then Done(false) else turns[|turns| - 1].status
  }

  function LiveText(turns: seq<Turn>): Option<string> {
    if LastStatus(turns).Done? then None else Some(turns[|turns| - 1].text)
  }

  /** The registered turn is the newest one, with its text; a live turn is registered. */
  predicate Registered(s: State) {
    && (s.active.Some? ==> |s.turns| > 0 && s.active.value == |s.turns| - 1 && s.current == Some(s.turns[|s.turns| - 1].text))
    && (!LastStatus(s.turns).Done? ==> s.active.Some?)
  }

  predicate PcFits(s: State) {
    var st := LastStatus(s.turns);
    match s.pc
    case Receiving => !st.Cancelling? && !s.interrupt && s.prefix == ""
    case SendingError => !st.Cancelling? && !s.interrupt && s.prefix == ""
    case SendingCancelled => st.Done? && !s.interrupt && s.prefix == ""
    case AwaitCancelled(i) => i == |s.turns| - 1 && st in {Cancelling(false), Done(false)} && !s.interrupt && s.prefix == ""
    case AwaitIdle(i) => i == |s.turns| - 1 && st in {Cancelling(false), Done(false)} && !s.interrupt && s.prefix == ""
    case AwaitInterrupted(i, _) => i == |s.turns| - 1 && st in {Cancelling(true), Done(true)} && s.interrupt && !s.shouldClose
    case SendingInterrupted(_) => st.Done? && s.interrupt && !s.shouldClose
    case Draining(i) => i == |s.turns| - 1 && !st.Cancelling? && !s.interrupt && s.prefix == ""
    case Exited(byBreak) => (if byBreak then st.Done? else !st.Cancelling?) && !s.interrupt && s.prefix == ""
  }

  /** The message a superseded turn's text is about to be bundled with. */
  function Carried(pc: Pc): Option<string> {
    match pc case AwaitInterrupted(_, msg) => Some(msg) case SendingInterrupted(msg) => Some(msg) case _ => None
  }

  predicate NoBlank(msgs: seq<string>) {
    forall m | m in msgs :: m != ""
  }

  /** The open messages are those of the live turn, or of the superseded one plus the message that superseded it. */
  predicate Accounts(done: seq<string>, live: Option<string>, carried: Option<string>, prefix: string, log: seq<Entry>) {
    var open := Open(log);
    && done == Closed(log)
    && NoBlank(open)
    && match carried
       case None => if live.None? then open == [] else open != [] && live.value == JoinLines(open)
       case Some(msg) =>
         && |open| >= 2 && open[|open| - 1] == msg && prefix == JoinLines(open[..|open| - 1])
         && (live.Some? ==> live.value == prefix)
  }

  predicate TextFits(s: State) {
    Accounts(Survivors(s.turns), LiveText(s.turns), Carried(s.pc), s.prefix, s.log)
  }

  predicate Inv(s: State) {
    OnlyLastLives(s.turns) && Registered(s) && PcFits(s) && TextFits(s)
  }

  // ----- the account of messages -----

  lemma LogGrows(log: seq<Entry>, e: Entry)
    ensures Open(log + [e]) == if e.CleanEnd? then [] else Open(log) + [e.msg]
    ensures Closed(log + [e]) == if e.CleanEnd? then Closed(log) + [JoinLines(Open(log))] else Closed(log)
  {
    assert (log + [e])[..|log|] == log;
  }

  lemma JoinSnoc(msgs: seq<string>, msg: string)
    requires msgs != []
    ensures JoinLines(msgs + [msg]) == JoinLines(msgs) + "\n" + msg
  {
    assert (msgs + [msg])[..|msgs|] == msgs;
  }

  lemma JoinNonempty(msgs: seq<string>)
    requires msgs != [] && NoBlank(msgs)
    ensures JoinLines(msgs) != ""
  {
    if |msgs| == 1 {
      assert msgs[0] in msgs;
    } else {
      assert JoinLines(msgs)[|JoinLines(msgs[..|msgs| - 1])|] == '\n';
    }
  }

  lemma FirstMessage(done: seq<string>, prefix: string, log: seq<Entry>, msg: string)
    requires Accounts(done, None, None, prefix, log) && msg != ""
    ensures Accounts(done, Some(msg), None, "", log + [Accepted(msg)])
  {
    hide Open, Closed;
    LogGrows(log, Accepted(msg));
    assert [] + [msg] == [msg];
  }

  lemma Interrupts(done: seq<string>, text: string, prefix: string, log: seq<Entry>, msg: string)
    requires Accounts(done, Some(text), None, prefix, log) && msg != ""
    ensures Accounts(done, Some(text), Some(msg), text, log + [Accepted(msg)])
  {
    hide Open, Closed, JoinLines;
    LogGrows(log, Accepted(msg));
    assert (Open(log) + [msg])[..|Open(log)|] == Open(log);
  }

  lemma Bundles(done: seq<string>, prefix: string, log: seq<Entry>, msg: string)
    requires Accounts(done, None, Some(msg), prefix, log)
    ensures Accounts(done, Some(Bundled(prefix, msg)), None, "", log)
  {
    hide Open, Closed, JoinLines;
    var open := Open(log);
    var kept := open[..|open| - 1];
    assert open == kept + [msg];
    assert forall m | m in kept :: m in open;
    JoinSnoc(kept, msg);
    JoinNonempty(kept);
  }

  lemma EndsCleanly(done: seq<string>, text: string, prefix: string, log: seq<Entry>)
    requires Accounts(done, Some(text), None, prefix, log)
    ensures Accounts(done + [text], None, None, prefix, log + [CleanEnd])
  {
    hide Open, Closed, JoinLines;
    LogGrows(log, CleanEnd);
  }

  // ----- the list of turns -----

  lemma StartsTurn(turns: seq<Turn>, text: string)
    requires LastStatus(turns).Done? && OnlyLastLives(turns)
    ensures var now := turns + [Turn(text, Running, false)];
            OnlyLastLives(now) && Survivors(now) == Survivors(turns) && LiveText(now) == Some(text)
  {
    assert (turns + [Turn(text, Running, false)])[..|turns|] == turns;
  }

  /** A live newest turn goes on to be cancelled, or ends. */
  lemma MovesOn(turns: seq<Turn>, st: Status)
    requires OnlyLastLives(turns) && LiveText(turns).Some?
    ensures var last := turns[|turns| - 1];
            var now := turns[|turns| - 1 := last.(status := st)];
            && OnlyLastLives(now) && LastStatus(now) == st && |now| == |turns|
            && now[|now| - 1].text == last.text
            && Survivors(now) == (if st == Done(false) then Survivors(turns) + [last.text] else Survivors(turns))
            && LiveText(now) == if st.Done? then None else LiveText(turns)
  {
    var now := turns[|turns| - 1 := turns[|turns| - 1].(status := st)];
    assert now[..|turns| - 1] == turns[..|turns| - 1];
  }

  lemma {:induction false} CalledBack(turns: seq<Turn>, i: nat)
    requires i < |turns|
    ensures var now := turns[i := turns[i].(calledBack := true)];
            && Survivors(now) == Survivors(turns) && LiveText(now) == LiveText(turns)
            && (OnlyLastLives(turns) ==> OnlyLastLives(now)) && LastStatus(now) == LastStatus(turns)
            && now[|turns| - 1].text == turns[|turns| - 1].text
    decreases |turns|
  {
    var now := turns[i := turns[i].(calledBack := true)];
    if i == |turns| - 1 {
      assert now[..|turns| - 1] == turns[..|turns| - 1];
    } else {
      CalledBack(turns[..|turns| - 1], i);
      assert now[..|turns| - 1] == turns[..|turns| - 1][i := turns[i].(calledBack := true)];
    }
  }

  // ----- preserved by every event -----

  lemma BusyIff(s: State)
    requires Registered(s)
    ensures Busy(s) <==> LiveText(s.turns).Some?
    ensures Busy(s) ==> s.active.value == |s.turns| - 1 && s.current == LiveText(s.turns)
  {
  }

  lemma SpawnKeeps(s: State, msg: string)
    requires OnlyLastLives(s.turns) && LastStatus(s.turns).Done? && !s.shouldClose
    requires Accounts(Survivors(s.turns), Some(Bundled(s.prefix, msg)), None, "", s.log)
    ensures Inv(Top(Spawn(s, msg)))
  {
    hide Accounts, Survivors, OnlyLastLives, Bundled;
    StartsTurn(s.turns, Bundled(s.prefix, msg));
  }

  lemma MessageKeeps(s: State, msg: string)
    requires Inv(s) && s.pc == Receiving && !s.shouldClose && msg != ""
    ensures Inv(OnMessage(s, msg))
  {
    hide Accounts, Survivors, OnlyLastLives;
    BusyIff(s);
    if Busy(s) {
      Interrupts(Survivors(s.turns), LiveText(s.turns).value, s.prefix, s.log, msg);
      MovesOn(s.turns, Cancelling(true));
    } else {
      FirstMessage(Survivors(s.turns), s.prefix, s.log, msg);
      SpawnKeeps(s.(log := s.log + [Accepted(msg)]), msg);
    }
  }

  lemma CancelKeeps(s: State, pc: Pc)
    requires Inv(s) && s.pc == Receiving && Busy(s)
    requires pc in {AwaitCancelled(s.active.value), AwaitIdle(s.active.value)}
    ensures Inv(SetStatus(s, s.active.value, Cancelling(false)).(pc := pc))
  {
    hide Accounts, Survivors, OnlyLastLives;
    BusyIff(s);
    MovesOn(s.turns, Cancelling(false));
    AnyPrefix(Survivors(s.turns), LiveText(s.turns), s.prefix, "", s.log);
  }

  lemma AnyPrefix(done: seq<string>, live: Option<string>, prefix: string, other: string, log: seq<Entry>)
    requires Accounts(done, live, None, prefix, log)
    ensures Accounts(done, live, None, other, log)
  {
  }

  lemma ResumeKeeps(s: State)
    requires Inv(s)
    ensures Inv(OnResume(s))
  {
    hide Accounts, Survivors, OnlyLastLives, Spawn;
    BusyIff(s);
    if s.pc.SendingInterrupted? {
      Bundles(Survivors(s.turns), s.prefix, s.log, s.pc.msg);
      SpawnKeeps(s, s.pc.msg);
    }
  }

  lemma EndKeeps(s: State, i: nat)
    requires Inv(s) && i < |s.turns| && !s.turns[i].status.Done?
    ensures Inv(Ends(s, i))
  {
    hide Accounts, Survivors;
    var st := s.turns[i].status;
    assert i == |s.turns| - 1;
    hide OnlyLastLives;
    MovesOn(s.turns, Done(st.Cancelling? && st.superseded));
    if st.Cancelling? && st.superseded {
      Unbusy(Survivors(s.turns), LiveText(s.turns), Carried(s.pc), s.prefix, s.log);
    } else {
      EndsCleanly(Survivors(s.turns), s.turns[i].text, s.prefix, s.log);
    }
  }

  lemma Unbusy(done: seq<string>, live: Option<string>, carried: Option<string>, prefix: string, log: seq<Entry>)
    requires Accounts(done, live, carried, prefix, log) && carried.Some?
    ensures Accounts(done, None, carried, prefix, log)
  {
    hide Open, Closed, JoinLines, NoBlank;
  }

  lemma CallbackKeeps(s: State, i: nat)
    requires Inv(s) && IsDone(s, i)
    ensures Inv(OnTurnDone(s, i))
  {
    hide Accounts, Survivors, OnlyLastLives;
    CalledBack(s.turns, i);
  }

  lemma FrameKeeps(s: State, frame: Frame)
    requires Inv(s) && s.pc == Receiving
    ensures Inv(OnFrame(s, frame))
  {
    hide Accounts, Survivors, OnlyLastLives, OnMessage, Strip;
    BusyIff(s);
    if !s.shouldClose {
      match frame
      case CancelTurn => if Busy(s) { CancelKeeps(s, AwaitCancelled(s.active.value)); }
      case Message(raw) => if Strip(raw) != "" { MessageKeeps(s, Strip(raw)); }
      case Unknown =>
    }
  }

  lemma StepKeeps(s: State, e: Event)
    requires Inv(s)
    ensures Inv(Step(s, e))
  {
    hide Accounts, Survivors, OnlyLastLives, OnFrame, OnResume, Ends, OnTurnDone;
    match e
    case Arrives(frame) => if s.pc == Receiving { FrameKeeps(s, frame); }
    case IdleTimeout =>
      BusyIff(s);
      if s.pc == Receiving && Busy(s) { CancelKeeps(s, AwaitIdle(s.active.value)); }
    case Disconnect =>
    case Resume => ResumeKeeps(s);
    case Finishes(i) => if i < |s.turns| && s.turns[i].status == Running { EndKeeps(s, i); }
    case Unwinds(i) => if i < |s.turns| && s.turns[i].status.Cancelling? { EndKeeps(s, i); }
    case ArmsClose(i) => if i < |s.turns| && s.turns[i].status == Running { ArmKeeps(s, i); }
    case CallsBack(i) => if IsDone(s, i) { CallbackKeeps(s, i); }
  }

  lemma ArmKeeps(s: State, i: nat)
    requires Inv(s) && i < |s.turns| && s.turns[i].status == Running
    ensures Inv(s.(shouldClose := true))
  {
    hide Accounts, Survivors;
    assert i == |s.turns| - 1;
  }

  // ----- over every interleaving -----

  lemma {:induction false} Reachable(closing: bool, es: seq<Event>)
    ensures Inv(Reach(Start(closing), es))
  {
    hide Step, Inv;
    if es == [] {
      StartFits(closing);
    } else {
      Reachable(closing, es[..|es| - 1]);
      StepKeeps(Reach(Start(closing), es[..|es| - 1]), es[|es| - 1]);
    }
  }

  lemma StartFits(closing: bool)
    ensures Inv(Start(closing))
  {
  }

  /** At most one turn is not over, and it is the one the loop has registered, with its text. */
  lemma AtMostOneTurn(closing: bool, es: seq<Event>, i: nat)
    requires var s := Reach(Start(closing), es); i < |s.turns| && !s.turns[i].status.Done?
    ensures var s := Reach(Start(closing), es);
            && (forall j | 0 <= j < |s.turns| && j != i :: s.turns[j].status.Done?)
            && s.active == Some(i) && s.current == Some(s.turns[i].text)
  {
    hide Reach, TextFits, PcFits;
    Reachable(closing, es);
  }

  /** A running turn's text is the join, in order, of the messages accepted since the last turn that ended without a
      message interrupt. */
  lemma RunningTurnText(closing: bool, es: seq<Event>, i: nat)
    requires var s := Reach(Start(closing), es); i < |s.turns| && s.turns[i].status == Running
    ensures var s := Reach(Start(closing), es); Open(s.log) != [] && s.turns[i].text == JoinLines(Open(s.log))
  {
    hide Reach, Open, Closed, JoinLines, Survivors;
    Reachable(closing, es);
    AtMostOneTurn(closing, es, i);
  }

  /** Every accepted message ends up in exactly one turn that was not superseded: the stretches of messages between
      clean ends are the texts of those turns, and what is left is the live turn or the bundle being built. */
  lemma MessagesAreConserved(closing: bool, es: seq<Event>)
    ensures var s := Reach(Start(closing), es);
            && Survivors(s.turns) == Closed(s.log)
            && (Open(s.log) == [] <==> LiveText(s.turns).None? && Carried(s.pc).None?)
            && (Carried(s.pc).Some? ==> Bundled(s.prefix, Carried(s.pc).value) == JoinLines(Open(s.log)))
  {
    hide Reach, Closed, Survivors, JoinLines, Open;
    Reachable(closing, es);
    var s := Reach(Start(closing), es);
    if Carried(s.pc).Some? {
      var open := Open(s.log);
      var kept := open[..|open| - 1];
      assert open == kept + [Carried(s.pc).value];
      assert forall m | m in kept :: m in open;
      JoinSnoc(kept, Carried(s.pc).value);
      JoinNonempty(kept);
    }
  }

  /** The callback of an old turn, however late, changes nothing of a newer one. */
  lemma LateCallbackSpares(closing: bool, es: seq<Event>, i: nat, j: nat)
    requires var s := Reach(Start(closing), es); IsDone(s, i) && j < |s.turns| && !s.turns[j].status.Done?
    ensures var s := Reach(Start(closing), es);
            var after := Step(s, CallsBack(i));
            && after == s.(turns := after.turns)
            && after.active == Some(j) && after.current == Some(s.turns[j].text) && after.turns[j] == s.turns[j]
  {
    hide Reach;
    AtMostOneTurn(closing, es, j);
  }

  /** What the cancelled turn reads when it decides whether to save its partial reply. */
  lemma SkipsSavingIff(closing: bool, es: seq<Event>, i: nat)
    requires var s := Reach(Start(closing), es); i < |s.turns| && s.turns[i].status.Cancelling?
    ensures var s := Reach(Start(closing), es); s.interrupt <==> s.turns[i].status.superseded
  {
    hide Reach, TextFits;
    Reachable(closing, es);
    AtMostOneTurn(closing, es, i);
  }

  lemma StepAfterClose(s: State, e: Event)
    requires Inv(s) && s.shouldClose
    ensures Step(s, e).shouldClose && |Step(s, e).turns| == |s.turns|
  {
    hide TextFits;
  }

  /** Once the loop guard is armed no turn is ever started. */
  lemma {:induction false} NoTurnAfterClose(closing: bool, es: seq<Event>, n: nat)
    requires n <= |es| && Reach(Start(closing), es[..n]).shouldClose
    ensures var s := Reach(Start(closing), es);
            s.shouldClose && |s.turns| == |Reach(Start(closing), es[..n]).turns|
    decreases |es|
  {
    hide Step, Inv, Start;
    if n == |es| {
      assert es[..n] == es;
    } else {
      var past := es[..|es| - 1];
      assert past[..n] == es[..n];
      NoTurnAfterClose(closing, past, n);
      Reachable(closing, past);
      StepAfterClose(Reach(Start(closing), past), es[|es| - 1]);
    }
  }

  /** Leaving by break leaves no turn behind. */
  lemma BreakLeavesNoTurn(closing: bool, es: seq<Event>)
    requires Reach(Start(closing), es).pc == Exited(true)
    ensures var s := Reach(Start(closing), es); forall i | 0 <= i < |s.turns| :: s.turns[i].status.Done?
  {
    hide Reach, TextFits;
    Reachable(closing, es);
  }

  /** Leaving because the client dropped neither cancels nor awaits anything: a turn is left behind exactly when the
      registered one is not over, and it is that one, still running. */
  lemma DisconnectLeavesTurnIff(closing: bool, es: seq<Event>)
    requires Reach(Start(closing), es).pc == Receiving
    ensures var s := Reach(Start(closing), es);
            var t := Step(s, Disconnect);
            && t.pc == Exited(false)
            && ((exists i | 0 <= i < |t.turns| :: !t.turns[i].status.Done?) <==> Busy(s))
            && (Busy(s) ==> t.turns[s.active.value].status == Running)
  {
    hide Reach, TextFits;
    Reachable(closing, es);
    var s := Reach(Start(closing), es);
    BusyIff(s);
    if Busy(s) { assert !s.turns[s.active.value].status.Done?; }
  }

  /** One message and a drop are enough. */
  lemma DisconnectLeavesTurn(msg: string)
    requires Strip(msg) != ""
    ensures var s := Reach(Start(false), [Arrives(Message(msg)), Disconnect]);
            s.pc == Exited(false) && |s.turns| == 1 && s.turns[0].status == Running
  {
    hide Strip;
    var es := [Arrives(Message(msg)), Disconnect];
    assert es[..1] == [Arrives(Message(msg))];
    assert es[..1][..0] == [];
    assert Reach(Start(false), es[..1]) == Step(Start(false), Arrives(Message(msg)));
  }

  /** The loop never waits for a turn that cannot end. */
  lemma WaitsEnd(closing: bool, es: seq<Event>)
    requires var pc := Reach(Start(closing), es).pc;
             pc.AwaitCancelled? || pc.AwaitIdle? || pc.AwaitInterrupted? || pc.Draining?
    ensures var s := Reach(Start(closing), es);
            exists e | e in {Finishes(s.pc.i), Unwinds(s.pc.i)} ::
              IsDone(Step(s, e), s.pc.i) && Step(Step(s, e), Resume).pc != s.pc
  {
    hide Reach, TextFits;
    Reachable(closing, es);
    var s := Reach(Start(closing), es);
    var e := if s.turns[s.pc.i].status.Cancelling? then Unwinds(s.pc.i) else Finishes(s.pc.i);
    assert IsDone(Step(s, e), s.pc.i) && Step(Step(s, e), Resume).pc != s.pc;
  }
}
