/** What becomes of every frame, and how the receive loop is left, in every interleaving (session.py). */
module TurnOutcomes {
  import opened Text
  import opened TurnProtocol

  // ----- one frame, followed to its end -----

  /** A cancel_turn frame: the turn in flight is cancelled and awaited, "cancelled" is sent, and the loop is back; nothing
      of the cancelled turn is carried forward into the next one. */
  lemma CancelFrameCancels(closing: bool, es: seq<Event>, i: nat, msg: string)
    requires var s := Reach(Start(closing), es);
             s.pc == Receiving && !s.shouldClose && i < |s.turns| && !s.turns[i].status.Done?
    requires Strip(msg) != ""
    ensures var s := Reach(Start(closing), es);
            var waits := Step(s, Arrives(CancelTurn));
            var sends := Step(Step(waits, Unwinds(i)), Resume);
            var back := Step(sends, Resume);
            var next := Step(back, Arrives(Message(msg)));
            && waits.turns == s.turns[i := s.turns[i].(status := Cancelling(false))]
            && sends.pc == SendingCancelled && back.pc == Receiving && next.pc == Receiving
            && back.turns == s.turns[i := s.turns[i].(status := Done(false))]
            && next.turns == back.turns + [Turn(Strip(msg), Running, false)]
  {
    hide Reach, TextFits, Strip;
    Reachable(closing, es);
    AtMostOneTurn(closing, es, i);
  }

  /** Without a turn in flight it changes nothing. */
  lemma CancelFrameAlone(closing: bool, es: seq<Event>)
    requires var s := Reach(Start(closing), es);
             s.pc == Receiving && !s.shouldClose && forall i | 0 <= i < |s.turns| :: s.turns[i].status.Done?
    ensures var s := Reach(Start(closing), es); Step(s, Arrives(CancelTurn)) == s
  {
    hide Reach, TextFits;
    Reachable(closing, es);
  }

  /** The idle timeout: a turn in flight is cancelled and awaited, and the loop is left with every turn over. */
  lemma TimeoutLeaves(closing: bool, es: seq<Event>, i: nat)
    requires var s := Reach(Start(closing), es); s.pc == Receiving && i < |s.turns| && !s.turns[i].status.Done?
    ensures var s := Reach(Start(closing), es);
            var waits := Step(s, IdleTimeout);
            var left := Step(Step(waits, Unwinds(i)), Resume);
            && waits.turns == s.turns[i := s.turns[i].(status := Cancelling(false))] && Step(waits, Resume) == waits
            && left.pc == Exited(true) && left.turns == s.turns[i := s.turns[i].(status := Done(false))]
            && forall j | 0 <= j < |left.turns| :: left.turns[j].status.Done?
  {
    hide Reach, TextFits;
    Reachable(closing, es);
    AtMostOneTurn(closing, es, i);
  }

  lemma TimeoutAlone(closing: bool, es: seq<Event>)
    requires var s := Reach(Start(closing), es);
             s.pc == Receiving && forall i | 0 <= i < |s.turns| :: s.turns[i].status.Done?
    ensures var s := Reach(Start(closing), es); Step(s, IdleTimeout) == s.(pc := Exited(true))
  {
    hide Reach, TextFits;
    Reachable(closing, es);
  }

  /** A message without a turn in flight starts one at once, with its stripped text alone. */
  lemma MessageStartsTurn(closing: bool, es: seq<Event>, msg: string)
    requires var s := Reach(Start(closing), es);
             s.pc == Receiving && !s.shouldClose && forall i | 0 <= i < |s.turns| :: s.turns[i].status.Done?
    requires Strip(msg) != ""
    ensures var s := Reach(Start(closing), es);
            var t := Step(s, Arrives(Message(msg)));
            && t.pc == Receiving && t.turns == s.turns + [Turn(Strip(msg), Running, false)]
            && t.active == Some(|s.turns|) && t.log == s.log + [Accepted(Strip(msg))]
  {
    hide Reach, TextFits, Strip;
    Reachable(closing, es);
  }

  /** A message with a turn in flight cancels it, waits, and starts one turn that holds both texts in order. */
  lemma MessageInterrupts(closing: bool, es: seq<Event>, i: nat, msg: string)
    requires var s := Reach(Start(closing), es);
             s.pc == Receiving && !s.shouldClose && i < |s.turns| && !s.turns[i].status.Done?
    requires Strip(msg) != ""
    ensures var s := Reach(Start(closing), es);
            var waits := Step(s, Arrives(Message(msg)));
            var sends := Step(Step(waits, Unwinds(i)), Resume);
            var back := Step(sends, Resume);
            && waits.turns == s.turns[i := s.turns[i].(status := Cancelling(true))] && Step(waits, Resume) == waits
            && sends.pc == SendingInterrupted(Strip(msg)) && back.pc == Receiving
            && back.turns == s.turns[i := s.turns[i].(status := Done(true))]
                             + [Turn(s.turns[i].text + "\n" + Strip(msg), Running, false)]
            && back.log == s.log + [Accepted(Strip(msg))]
  {
    hide Reach, TextFits, Strip, TurnProtocol.Open, JoinLines;
    Reachable(closing, es);
    AtMostOneTurn(closing, es, i);
    LiveTextIsNotEmpty(closing, es, i);
  }

  lemma LiveTextIsNotEmpty(closing: bool, es: seq<Event>, i: nat)
    requires var s := Reach(Start(closing), es);
             i < |s.turns| && !s.turns[i].status.Done? && Carried(s.pc).None?
    ensures Reach(Start(closing), es).turns[i].text != ""
  {
    hide Reach, TurnProtocol.Open, Closed, JoinLines, Survivors, NoBlank;
    Reachable(closing, es);
    AtMostOneTurn(closing, es, i);
    JoinNonempty(TurnProtocol.Open(Reach(Start(closing), es).log));
  }

  /** A blank message or an unknown frame is answered with an error and changes nothing, whatever is in flight. */
  lemma OtherFramesChangeNothing(closing: bool, es: seq<Event>, frame: Frame)
    requires var s := Reach(Start(closing), es); s.pc == Receiving && !s.shouldClose
    requires frame.Unknown? || (frame.Message? && Strip(frame.text) == "")
    ensures var s := Reach(Start(closing), es);
            var sends := Step(s, Arrives(frame));
            sends == s.(pc := SendingError) && Step(sends, Resume) == s
  {
    hide Reach, Strip;
  }

  /** A frame that races the closing turn is ignored: the loop waits for that turn and is left, and none is started. */
  lemma LateFrameIsIgnored(closing: bool, es: seq<Event>, frame: Frame, i: nat)
    requires var s := Reach(Start(closing), es); s.pc == Receiving && s.shouldClose
    ensures var s := Reach(Start(closing), es);
            var waits := Step(s, Arrives(frame));
            var left := Step(Step(waits, Finishes(i)), Resume);
            && waits.turns == s.turns && waits.log == s.log
            && ((forall j | 0 <= j < |s.turns| :: s.turns[j].status.Done?) ==> waits.pc == Exited(true))
            && (i < |s.turns| && !s.turns[i].status.Done? ==>
                  && waits.pc == Draining(i) && Step(waits, Resume) == waits
                  && left.pc == Exited(true) && left.turns == s.turns[i := s.turns[i].(status := Done(false))])
  {
    hide Reach, TextFits;
    Reachable(closing, es);
    if i < |Reach(Start(closing), es).turns| && !Reach(Start(closing), es).turns[i].status.Done? {
      AtMostOneTurn(closing, es, i);
    }
  }

  // ----- which messages are taken -----

  /** The stripped messages that arrive while the loop is in receive and not closing. */
  function Offered(closing: bool, es: seq<Event>): seq<string> {
    if es == [] then []
    else
      var past, e := es[..|es| - 1], es[|es| - 1];
      var s := Reach(Start(closing), past);
      Offered(closing, past) +
      if e.Arrives? && e.frame.Message? && Strip(e.frame.text) != "" && s.pc == Receiving && !s.shouldClose
      then [Strip(e.frame.text)] else []
  }

  function Taken(log: seq<Entry>): seq<string> {
    if log == [] then []
    else Taken(log[..|log| - 1]) + if log[|log| - 1].Accepted? then [log[|log| - 1].msg] else []
  }

  lemma TakenGrows(log: seq<Entry>, x: Entry)
    ensures Taken(log + [x]) == Taken(log) + if x.Accepted? then [x.msg] else []
  {
    assert (log + [x])[..|log|] == log;
  }

  /** Every one of them is accepted, in order, and no other: whatever is in flight, none is lost. */
  lemma {:induction false} AcceptedAreOffered(closing: bool, es: seq<Event>)
    ensures Taken(Reach(Start(closing), es).log) == Offered(closing, es)
  {
    if es != [] {
      var past, e := es[..|es| - 1], es[|es| - 1];
      AcceptedAreOffered(closing, past);
      hide Taken, Strip, Reach, Offered;
      StepLogs(Reach(Start(closing), past), e);
      StepTo(closing, es);
      hide Step;
      TakenGrows(Reach(Start(closing), past).log, CleanEnd);
      if e.Arrives? && e.frame.Message? { TakenGrows(Reach(Start(closing), past).log, Accepted(Strip(e.frame.text))); }
      OfferedStep(closing, es);
    }
  }

  lemma OfferedStep(closing: bool, es: seq<Event>)
    requires es != []
    ensures var past, e := es[..|es| - 1], es[|es| - 1];
            var s := Reach(Start(closing), past);
            Offered(closing, es) == Offered(closing, past) +
              if e.Arrives? && e.frame.Message? && Strip(e.frame.text) != "" && s.pc == Receiving && !s.shouldClose
              then [Strip(e.frame.text)] else []
  {
    hide Strip, Reach;
  }

  lemma StepTo(closing: bool, es: seq<Event>)
    requires es != []
    ensures Reach(Start(closing), es) == Step(Reach(Start(closing), es[..|es| - 1]), es[|es| - 1])
  {
    hide Step;
  }

  lemma StepLogs(s: State, e: Event)
    ensures var t := Step(s, e);
            if e.Arrives? && e.frame.Message? && Strip(e.frame.text) != "" && s.pc == Receiving && !s.shouldClose
            then t.log == s.log + [Accepted(Strip(e.frame.text))]
            else t.log == s.log || t.log == s.log + [CleanEnd]
  {
    hide Strip;
  }

  // ----- how the loop is left -----

  predicate StaysOpen(s: State) {
    !s.shouldClose && !s.pc.AwaitIdle? && !s.pc.Draining? && !s.pc.Exited?
  }

  lemma StepStaysOpen(s: State, e: Event)
    requires StaysOpen(s) && !e.ArmsClose? && !e.IdleTimeout? && !e.Disconnect?
    ensures StaysOpen(Step(s, e))
  {
    hide Strip, Bundled, Busy, IsDone;
  }

  /** Nothing but the closing turn, the idle timeout and a dropped client ends the loop. */
  lemma {:induction false} LoopStaysOpen(es: seq<Event>)
    requires forall e | e in es :: !e.ArmsClose? && !e.IdleTimeout? && !e.Disconnect?
    ensures StaysOpen(Reach(Start(false), es))
  {
    if es != [] {
      hide Step, StaysOpen;
      var past := es[..|es| - 1];
      assert forall e | e in past :: e in es;
      LoopStaysOpen(past);
      assert es[|es| - 1] in es;
      StepStaysOpen(Reach(Start(false), past), es[|es| - 1]);
    }
  }

  /** A running turn arms the loop guard. */
  predicate Arms(s: State, e: Event) {
    e.ArmsClose? && e.i < |s.turns| && s.turns[e.i].status == Running
  }

  lemma StepCloses(s: State, e: Event)
    ensures Step(s, e).shouldClose <==> s.shouldClose || Arms(s, e)
  {
    hide Strip;
  }

  /** The guard is armed exactly when some running turn armed it. */
  lemma {:induction false} ClosesIff(closing: bool, es: seq<Event>)
    ensures Reach(Start(closing), es).shouldClose <==>
            closing || exists k | 0 <= k < |es| :: Arms(Reach(Start(closing), es[..k]), es[k])
  {
    hide Reach, Arms, Step;
    if es == [] {
      StartCloses(closing);
    } else {
      var past := es[..|es| - 1];
      ClosesIff(closing, past);
      StepTo(closing, es);
      StepCloses(Reach(Start(closing), past), es[|es| - 1]);
      forall k | 0 <= k < |past| ensures es[..k] == past[..k] && es[k] == past[k] {}
      if k :| 0 <= k < |past| && Arms(Reach(Start(closing), past[..k]), past[k]) {
        assert Arms(Reach(Start(closing), es[..k]), es[k]);
      }
    }
  }

  lemma StartCloses(closing: bool)
    ensures Reach(Start(closing), []).shouldClose == closing
  {
  }

  /** Once armed, the loop never goes back to receive. */
  lemma NeverParksClosing(s: State, e: Event)
    requires s.shouldClose && s.pc != Receiving
    ensures Step(s, e).pc != Receiving
    ensures Start(true).pc == Exited(true)
  {
    hide Strip;
  }

  /** A turn is registered, with its text, from its start to its callback and no longer. */
  predicate RegisteredToCallback(s: State) {
    && (s.active.Some? <==> s.turns != [] && !s.turns[|s.turns| - 1].calledBack)
    && (s.current.Some? <==> s.active.Some?)
  }

  lemma StepRegisters(s: State, e: Event)
    requires Inv(s) && RegisteredToCallback(s)
    ensures RegisteredToCallback(Step(s, e))
  {
    hide TextFits, Strip, OnlyLastLives, PcFits, Bundled, OnTurnDone, OnFrame, OnIdle, OnResume;
    match e
    case Arrives(frame) => if s.pc == Receiving { FrameRegisters(s, frame); }
    case IdleTimeout => if s.pc == Receiving { IdleRegisters(s); }
    case Resume => ResumeRegisters(s);
    case CallsBack(i) => if IsDone(s, i) && !s.turns[i].calledBack { CallbackRegisters(s, i); }
    case _ =>
  }

  lemma FrameRegisters(s: State, frame: Frame)
    requires RegisteredToCallback(s)
    ensures RegisteredToCallback(OnFrame(s, frame))
  {
    hide Strip, Bundled, IsDone;
  }

  lemma IdleRegisters(s: State)
    requires RegisteredToCallback(s)
    ensures RegisteredToCallback(OnIdle(s))
  {
    hide IsDone;
  }

  lemma ResumeRegisters(s: State)
    requires RegisteredToCallback(s)
    ensures RegisteredToCallback(OnResume(s))
  {
    hide IsDone, Bundled;
  }

  lemma CallbackRegisters(s: State, i: nat)
    requires Registered(s) && RegisteredToCallback(s) && i < |s.turns| && !s.turns[i].calledBack
    ensures RegisteredToCallback(OnTurnDone(s, i))
  {
  }

  lemma {:induction false} RegisteredUntilCallback(closing: bool, es: seq<Event>)
    ensures RegisteredToCallback(Reach(Start(closing), es))
  {
    if es != [] {
      hide Step, Inv, RegisteredToCallback;
      RegisteredUntilCallback(closing, es[..|es| - 1]);
      Reachable(closing, es[..|es| - 1]);
      StepRegisters(Reach(Start(closing), es[..|es| - 1]), es[|es| - 1]);
    }
  }
}
