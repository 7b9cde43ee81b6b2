/** Who may write what on a session row, the evaluation queue and an activity, and in what order evaluations run
    (session.py, deadline_reminders.py, metrics_evaluator.py, admin.py, activities.py). */
module RowWrites {
  import opened Text
  import opened Lifecycle

  // ----- opening -----

  /** On every reachable state, what an opening does: it resumes silently while a resumable session is found, and adds
      a row exactly when the student is let in and has none: nothing finalized, the activity there and not past its
      deadline. No other row changes. */
  lemma OpeningIff(now: int, activities: map<nat, Activity>, es: seq<Event>, student: string, activity: nat,
                   found: Option<nat>)
    requires IsLatest(Reach(Start(now, activities), es), student, activity, found)
    ensures var s := Reach(Start(now, activities), es);
            var t := Step(s, Opens(student, activity, found));
            var letIn := && activity in s.activities
                         && (s.activities[activity].deadline.None? || s.now <= s.activities[activity].deadline.value)
                         && forall id | id in s.sessions && Owns(s.sessions[id], student, activity) ::
                              s.sessions[id].finalizedAt.None?;
            if letIn && (forall id | id in s.sessions && Owns(s.sessions[id], student, activity) :: !s.sessions[id].resumable)
            then && s.nextId !in s.sessions
                 && t == s.(sessions := s.sessions[s.nextId := Session(activity, student, IN_PROGRESS, s.now, None, false, false)],
                            nextId := s.nextId + 1)
            else t == s
  {
    hide Reach;
    Reachable(now, activities, es);
    var s := Reach(Start(now, activities), es);
    if found.Some? { FoundIsResumed(now, activities, es, student, activity, found.value); }
    IdsAreBelow(s);
    hide Inv;
    if found.None? {
      forall id | id in s.sessions && Owns(s.sessions[id], student, activity) && s.sessions[id].resumable
        ensures s.sessions[id].finalizedAt.Some?
      {
        assert !CanResume(s, id, student, activity);
      }
    } else {
      assert CanResume(s, found.value, student, activity);
    }
  }

  /** A session that can be resumed is: no row is added and none changes. */
  lemma FoundIsResumed(now: int, activities: map<nat, Activity>, es: seq<Event>, student: string, activity: nat, id: nat)
    requires IsLatest(Reach(Start(now, activities), es), student, activity, Some(id))
    ensures var s := Reach(Start(now, activities), es); Step(s, Opens(student, activity, Some(id))) == s
  {
    hide Reach, HasFinalized;
    Reachable(now, activities, es);
    var s := Reach(Start(now, activities), es);
    assert CanResume(s, id, student, activity) && RowFits(s, id);
    assert s.sessions[id := s.sessions[id]] == s.sessions;
  }

  /** So whoever leaves an unfinished session, with or without a wrap-up after a completed turn, comes back to it:
      reconnecting adds nothing. */
  lemma ComesBackToIt(now: int, activities: map<nat, Activity>, es: seq<Event>, id: nat, leaves: Event, found: Option<nat>)
    requires var s := Reach(Start(now, activities), es); id in s.sessions && s.sessions[id].finalizedAt.None?
    requires leaves == Persists(id) || (leaves.WrapsUp? && leaves.id == id)
    ensures var s := Reach(Start(now, activities), es);
            var t := Step(s, leaves);
            && t == s.(sessions := s.sessions[id := s.sessions[id].(resumable := true)])
            && Step(t, Opens(s.sessions[id].student, s.sessions[id].activity, found)) == t
  {
    hide Reach, IsLate;
    var s := Reach(Start(now, activities), es);
    var (student, activity) := (s.sessions[id].student, s.sessions[id].activity);
    ReachSnoc(Start(now, activities), es, leaves);
    var t := Step(s, leaves);
    assert CanResume(t, id, student, activity);
    if IsLatest(t, student, activity, found) {
      assert found.Some?;
      FoundIsResumed(now, activities, es + [leaves], student, activity, found.value);
    }
  }

  lemma IdsAreBelow(s: State)
    requires RowsFit(s)
    ensures forall id | id in s.sessions :: id < s.nextId
  {
    forall id | id in s.sessions ensures id < s.nextId { assert RowFits(s, id); }
  }

  lemma ReachSnoc(s: State, es: seq<Event>, e: Event)
    ensures Reach(s, es + [e]) == Step(Reach(s, es), e)
  {
    hide Step;
    assert (es + [e])[..|es + [e]| - 1] == es;
  }

  // ----- one row -----

  predicate InTime(s: State, r: Session) {
    r.finalizedAt.Some? && (DeadlineOf(s, r).None? || r.finalizedAt.value <= DeadlineOf(s, r).value)
  }

  predicate Deletes(e: Event, r: Session) {
    e.Resets? && e.activity == r.activity && (e.only.None? || e.only.value == r.student)
  }

  /** The sweep acts on the row. */
  predicate Sweeps(s: State, e: Event, id: nat)
    requires id in s.sessions
  {
    e.ForceFinalizes? && e.id == id && (id, e.seen) in s.due && s.sessions[id].status == IN_PROGRESS
  }

  /** The worker is done with the row. */
  predicate Grades(s: State, e: Event, id: nat, outcome: Outcome) {
    e == WorkerEnds(outcome) && s.working == Some(id)
  }

  /** Field by field, the only events that write to a row, and what they write. The mark is written once by the student's
      side; only the sweep overwrites it, and only before the session is dispatched. */
  predicate Written(s: State, e: Event, id: nat, q: Session)
    requires id in s.sessions
  {
    var r := s.sessions[id];
    && q.student == r.student && q.activity == r.activity && q.startedAt == r.startedAt
    && (q.engaged <==> r.engaged || e == Engages(id))
    && (q.resumable <==> r.resumable || e == Persists(id) || (e.WrapsUp? && e.id == id))
    && q.finalizedAt == (if e == Finalizes(id) && r.finalizedAt.None? then Some(s.now)
                         else if Sweeps(s, e, id) then Some(e.seen)
                         else r.finalizedAt)
    && q.status == (if e.WrapsUp? && e.id == id && r.status == IN_PROGRESS && InTime(s, r) then PENDING_EVALUATION
                    else if Sweeps(s, e, id) then PENDING_EVALUATION
                    else if e == ReEvaluates(id) && r.finalizedAt.Some? then PENDING_EVALUATION
                    else if Grades(s, e, id, Fails) then EVALUATION_FAILED
                    else if Grades(s, e, id, Evaluates) && r.engaged then EVALUATED
                    else r.status)
  }

  predicate RowAfter(s: State, e: Event, id: nat, t: State)
    requires id in s.sessions
  {
    && (id in t.sessions <==> !(Deletes(e, s.sessions[id]) && e.activity in s.activities))
    && (id in t.sessions ==> Written(s, e, id, t.sessions[id]))
  }

  lemma WhoWritesWhat(s: State, e: Event, id: nat)
    requires Inv(s) && id in s.sessions
    ensures RowAfter(s, e, id, Step(s, e))
  {
    hide RowAfter, Inv, IsLatest, DueSessions, DueReminders, DueSummaries, Opened, WrappedUp, Forced, WorkerEnded, ReQueued,
         WasResetTo, DeadlineEdited, Reminded, Summarised, Finalized;
    match e
    case Opens(student, activity, found) =>
      if IsLatest(s, student, activity, found) { OpeningWritesNothing(s, student, activity, found, id); }
      SameRow(s, e, id, Step(s, e));
    case WrapsUp(j, autoEvaluate) => WrapUpWrites(s, j, autoEvaluate, id);
    case ForceFinalizes(j, seen) => SweepWrites(s, j, seen, id);
    case WorkerEnds(outcome) => WorkerWrites(s, outcome, id);
    case ReEvaluates(j) => ReQueueWrites(s, j, id);
    case Resets(activity, only) => ResetWrites(s, activity, only, id);
    case Engages(j) => StudentWrites(s, e, id);
    case Persists(j) => StudentWrites(s, e, id);
    case Finalizes(j) => StudentWrites(s, e, id);
    case _ => ElsewhereWrites(s, e, id);
  }

  lemma SameRow(s: State, e: Event, id: nat, t: State)
    requires id in s.sessions && id in t.sessions && t.sessions[id] == s.sessions[id]
    requires e.Opens? || e.Tick? || e.ScansDeadlines? || e.WorkerTakes? || e.EditsDeadline? || e.TogglesStatus?
          || e.ScansReminders? || e.Reminds? || e.ScansSummaries? || e.Summarises?
    ensures RowAfter(s, e, id, t)
  {
  }

  lemma ElsewhereWrites(s: State, e: Event, id: nat)
    requires id in s.sessions
    requires e.Tick? || e.ScansDeadlines? || e.WorkerTakes? || e.EditsDeadline? || e.TogglesStatus?
          || e.ScansReminders? || e.Reminds? || e.ScansSummaries? || e.Summarises?
    ensures RowAfter(s, e, id, Step(s, e))
  {
    hide RowAfter, DueSessions, DueReminders, DueSummaries;
    SameRow(s, e, id, Step(s, e));
  }

  lemma StudentWrites(s: State, e: Event, id: nat)
    requires id in s.sessions && (e.Engages? || e.Persists? || e.Finalizes?)
    ensures RowAfter(s, e, id, Step(s, e))
  {
    hide DeadlineOf, InTime;
  }

  lemma WrapUpWrites(s: State, j: nat, autoEvaluate: bool, id: nat)
    requires id in s.sessions
    ensures RowAfter(s, WrapsUp(j, autoEvaluate), id, Step(s, WrapsUp(j, autoEvaluate)))
  {
  }

  lemma SweepWrites(s: State, j: nat, seen: int, id: nat)
    requires id in s.sessions
    ensures RowAfter(s, ForceFinalizes(j, seen), id, Step(s, ForceFinalizes(j, seen)))
  {
    hide InTime;
  }

  lemma WorkerWrites(s: State, outcome: Outcome, id: nat)
    requires id in s.sessions
    ensures RowAfter(s, WorkerEnds(outcome), id, Step(s, WorkerEnds(outcome)))
  {
    hide InTime;
  }

  lemma ReQueueWrites(s: State, j: nat, id: nat)
    requires id in s.sessions
    ensures RowAfter(s, ReEvaluates(j), id, Step(s, ReEvaluates(j)))
  {
    hide InTime;
  }

  lemma ResetWrites(s: State, activity: nat, only: Option<string>, id: nat)
    requires id in s.sessions
    ensures RowAfter(s, Resets(activity, only), id, Step(s, Resets(activity, only)))
  {
    hide InTime;
  }

  lemma OpeningWritesNothing(s: State, student: string, activity: nat, found: Option<nat>, id: nat)
    requires Inv(s) && id in s.sessions && IsLatest(s, student, activity, found)
    ensures id in Opened(s, student, activity, found).sessions
    ensures Opened(s, student, activity, found).sessions[id] == s.sessions[id]
  {
    hide DispatchFits, DueFits, QueueFits, HasFinalized;
    assert RowFits(s, id);
    if found.Some? { assert CanResume(s, found.value, student, activity) && RowFits(s, found.value); }
  }

  // ----- the queue -----

  /** The queue grows by the sessions dispatched for evaluation or asked for again, at its end, and shrinks only as the
      worker takes its head. */
  lemma WhoQueues(s: State, e: Event)
    ensures Step(s, e).queue ==
            match e
            case WrapsUp(id, autoEvaluate) =>
              if autoEvaluate && id in s.sessions && s.sessions[id].status == IN_PROGRESS && InTime(s, s.sessions[id])
              then s.queue + [id] else s.queue
            case ForceFinalizes(id, _) => if id in s.sessions && Sweeps(s, e, id) then s.queue + [id] else s.queue
            case ReEvaluates(id) =>
              if id in s.sessions && s.sessions[id].finalizedAt.Some? then s.queue + [id] else s.queue
            case WorkerTakes => if s.working.None? && s.queue != [] then s.queue[1..] else s.queue
            case _ => s.queue
  {
    hide IsLatest, HasFinalized, DueSessions, DueReminders, DueSummaries;
  }

  /** The requests made so far, in order. */
  function Requested(log: seq<Entry>): seq<nat> {
    if log == [] then []
    else
      var x := log[|log| - 1];
      Requested(log[..|log| - 1]) + if x.AutoQueued? || x.Requeued? then [x.id] else []
  }

  function WorkedOff(log: seq<Entry>): seq<nat> {
    if log == [] then []
    else
      var x := log[|log| - 1];
      WorkedOff(log[..|log| - 1]) + if x.Worked? then [x.id] else []
  }

  function InHand(o: Option<nat>): seq<nat> {
    if o.Some? then [o.value] else []
  }

  lemma LogStep(log: seq<Entry>, x: Entry)
    ensures Requested(log + [x]) == Requested(log) + if x.AutoQueued? || x.Requeued? then [x.id] else []
    ensures WorkedOff(log + [x]) == WorkedOff(log) + if x.Worked? then [x.id] else []
  {
    assert (log + [x])[..|log|] == log;
  }

  predicate InOrder(s: State) {
    Requested(s.log) == WorkedOff(s.log) + InHand(s.working) + s.queue
  }

  lemma DispatchInOrder(s: State, id: nat, r: Session, enqueue: bool)
    requires InOrder(s)
    ensures InOrder(Dispatch(s, id, r, enqueue))
  {
    hide Requested, WorkedOff;
    LogStep(s.log, Dispatched(id));
    LogStep(s.log + [Dispatched(id)], AutoQueued(id));
  }

  /** Elsewhere the pipeline stands still. */
  lemma PipelineStays(s: State, e: Event)
    requires !e.WrapsUp? && !e.ForceFinalizes? && !e.WorkerTakes? && !e.WorkerEnds? && !e.ReEvaluates?
    ensures var t := Step(s, e);
            && t.queue == s.queue && t.working == s.working
            && (t.log == s.log || (e.Resets? && t.log == s.log + [WasReset(e.activity)])
                || (e.Reminds? && t.log == s.log + [ReminderBatch(e.activity)])
                || (e.Summarises? && t.log == s.log + [Summary(e.activity)]))
  {
    hide IsLatest, HasFinalized, DueSessions, DueReminders, DueSummaries, Without;
  }

  lemma StepInOrder(s: State, e: Event)
    requires InOrder(s)
    ensures InOrder(Step(s, e))
  {
    hide Requested, WorkedOff, Dispatch, Step, IsLate;
    match e
    case WrapsUp(id, enqueue) => WrapUpInOrder(s, id, enqueue);
    case ForceFinalizes(id, seen) => SweepInOrder(s, id, seen);
    case WorkerTakes => WorkerInOrder(s, Evaluates);
    case WorkerEnds(outcome) => WorkerInOrder(s, outcome);
    case ReEvaluates(id) => ReQueueInOrder(s, id);
    case Resets(activity, _) => PipelineStays(s, e); LogStep(s.log, WasReset(activity));
    case Reminds(activity) => PipelineStays(s, e); LogStep(s.log, ReminderBatch(activity));
    case Summarises(activity) => PipelineStays(s, e); LogStep(s.log, Summary(activity));
    case _ => PipelineStays(s, e);
  }

  lemma WrapUpInOrder(s: State, id: nat, enqueue: bool)
    requires InOrder(s)
    ensures InOrder(Step(s, WrapsUp(id, enqueue)))
  {
    hide Requested, WorkedOff, Dispatch, IsLate;
    if id in s.sessions { DispatchInOrder(s, id, s.sessions[id].(resumable := true), enqueue); }
  }

  lemma SweepInOrder(s: State, id: nat, seen: int)
    requires InOrder(s)
    ensures InOrder(Step(s, ForceFinalizes(id, seen)))
  {
    hide Requested, WorkedOff, Dispatch;
    if id in s.sessions { DispatchInOrder(s, id, s.sessions[id].(finalizedAt := Some(seen)), true); }
  }

  lemma WorkerInOrder(s: State, outcome: Outcome)
    requires InOrder(s)
    ensures InOrder(Step(s, WorkerTakes)) && InOrder(Step(s, WorkerEnds(outcome)))
  {
    hide Requested, WorkedOff;
    if s.queue != [] { assert s.queue == [s.queue[0]] + s.queue[1..]; }
    if s.working.Some? { LogStep(s.log, Worked(s.working.value)); }
  }

  lemma ReQueueInOrder(s: State, id: nat)
    requires InOrder(s)
    ensures InOrder(Step(s, ReEvaluates(id)))
  {
    hide Requested, WorkedOff;
    LogStep(s.log, Requeued(id));
  }

  /** In every interleaving evaluations run in the order they were asked for: what was requested is, in order, what was
      worked off, then what is in hand, then the queue. */
  lemma {:induction false} FirstComeFirstServed(now: int, activities: map<nat, Activity>, es: seq<Event>)
    ensures InOrder(Reach(Start(now, activities), es))
  {
    if es != [] {
      hide Step, InOrder;
      FirstComeFirstServed(now, activities, es[..|es| - 1]);
      StepInOrder(Reach(Start(now, activities), es[..|es| - 1]), es[|es| - 1]);
    }
  }

  // ----- the evaluator's verdict -----

  /** A verdict is the worker's, and an evaluated session has something to evaluate. */
  predicate VerdictFits(s: State, id: nat) {
    id in s.sessions ==>
      && (s.sessions[id].status == EVALUATED ==> s.sessions[id].engaged && Worked(id) in s.log)
      && (s.sessions[id].status == EVALUATION_FAILED ==> Worked(id) in s.log)
  }

  lemma LogStays(s: State, e: Event)
    ensures s.log <= Step(s, e).log
    ensures e.WorkerEnds? && s.working.Some? ==> Worked(s.working.value) in Step(s, e).log
  {
    hide IsLatest, HasFinalized, DueSessions, DueReminders, DueSummaries, IsLate, Without;
  }

  lemma StepKeepsVerdict(s: State, e: Event, id: nat)
    requires Inv(s) && VerdictFits(s, id) && id < s.nextId
    ensures VerdictFits(Step(s, e), id)
  {
    hide Step, Inv;
    LogStays(s, e);
    if id in s.sessions { WhoWritesWhat(s, e, id); } else { StepIsLater(s, e, id); }
  }

  lemma NewRowIsOpen(s: State, e: Event, id: nat)
    requires Inv(s) && s.nextId <= id
    ensures id in Step(s, e).sessions ==> Step(s, e).sessions[id].status == IN_PROGRESS
  {
    hide DispatchFits, DueFits, QueueFits, DueSessions, DueReminders, DueSummaries, IsLate, HasFinalized;
    IdsAreBelow(s);
  }

  lemma {:induction false} VerdictIsEarned(now: int, activities: map<nat, Activity>, es: seq<Event>, id: nat)
    ensures VerdictFits(Reach(Start(now, activities), es), id)
  {
    if es != [] {
      hide Step, Inv;
      var s := Reach(Start(now, activities), es[..|es| - 1]);
      VerdictIsEarned(now, activities, es[..|es| - 1], id);
      Reachable(now, activities, es[..|es| - 1]);
      if id < s.nextId { StepKeepsVerdict(s, es[|es| - 1], id); } else { NewRowIsOpen(s, es[|es| - 1], id); }
    }
  }

  /** What becomes of the session at the head of the queue: it is graded exactly when an attempt succeeds on a session with
      something said, and fails exactly when all attempts do or, with nothing said, it had failed before; its mark
      stays, and no other row is touched. */
  lemma EvaluationOutcomeIff(now: int, activities: map<nat, Activity>, es: seq<Event>, outcome: Outcome)
    requires var s := Reach(Start(now, activities), es); s.working.None? && s.queue != []
    ensures var s := Reach(Start(now, activities), es);
            var t := Step(Step(s, WorkerTakes), WorkerEnds(outcome));
            var id := s.queue[0];
            && t.working.None? && t.queue == s.queue[1..] && t.log == s.log + [Worked(id)]
            && t.sessions.Keys == s.sessions.Keys
            && (forall j | j in s.sessions && j != id :: t.sessions[j] == s.sessions[j])
            && (id in s.sessions ==>
                  var (r, q) := (s.sessions[id], t.sessions[id]);
                  && r.finalizedAt.Some? && q == r.(status := q.status)
                  && (q.status == EVALUATED <==> outcome == Evaluates && r.engaged)
                  && (q.status == EVALUATION_FAILED <==>
                        outcome == Fails || (!r.engaged && r.status == EVALUATION_FAILED)))
  {
    hide Reach;
    var s := Reach(Start(now, activities), es);
    Reachable(now, activities, es);
    assert QueueFits(s, s.queue[0]);
    VerdictIsEarned(now, activities, es, s.queue[0]);
    if s.queue[0] in s.sessions { assert RowFits(s, s.queue[0]); }
  }

  // ----- activities -----

  /** The only events that write to an activity: a teacher's, on its terms, and the two mails. */
  lemma WhoWritesActivities(s: State, e: Event, id: nat)
    requires id in s.activities
    ensures id in Step(s, e).activities
    ensures var (r, q) := (s.activities[id], Step(s, e).activities[id]);
            && q.status == (if e.TogglesStatus? && e.activity == id then e.status else r.status)
            && q.deadline == (if e.Resets? && e.activity == id then Some(s.now + 30 * 24 * 3600)
                              else if && e.EditsDeadline? && e.activity == id && r.status == DRAFT
                                      && (e.deadline.None? || s.now < e.deadline.value) then e.deadline
                              else r.deadline)
            && q.reminded == (if e.Resets? && e.activity == id then false
                              else r.reminded || (e == Reminds(id) && id in s.dueReminder))
            && q.summarised == (if e.Resets? && e.activity == id then false
                                else r.summarised || (e == Summarises(id) && id in s.dueSummary && r.deadline.Some?))
  {
    hide IsLatest, HasFinalized, DueSessions, DueReminders, DueSummaries, IsLate, Without;
  }

  /** When a reminder goes out, scan and send together: for a published activity not yet reminded whose deadline is ahead
      by at most half an hour. */
  lemma ReminderGoesOutIff(s: State, activity: nat)
    requires activity in s.activities && activity !in s.dueReminder
    ensures var r := s.activities[activity];
            var t := Step(Step(s, ScansReminders), Reminds(activity));
            t.log == s.log + if && r.status == PUBLISHED && !r.reminded && r.deadline.Some?
                                && s.now < r.deadline.value <= s.now + 1800
                             then [ReminderBatch(activity)] else []
  {
    assert s.log + [] == s.log;
  }

  /** And a summary: for an activity not yet summarised whose deadline is past, archived or not. */
  lemma SummaryGoesOutIff(s: State, activity: nat)
    requires activity in s.activities && activity !in s.dueSummary
    ensures var r := s.activities[activity];
            var t := Step(Step(s, ScansSummaries), Summarises(activity));
            t.log == s.log + if !r.summarised && r.deadline.Some? && r.deadline.value <= s.now
                             then [Summary(activity)] else []
  {
    assert s.log + [] == s.log;
  }
}
