/** Guarantees of the session lifecycle that concern a student's access, the mails of an activity and the deadline
    sweep (session.py, deadline_reminders.py, activities.py). */
module LifecycleGuarantees {
  import opened Text
  import opened Lifecycle

  // ----- a finished student is not let in again -----

  predicate ResetsFor(e: Event, student: string, activity: nat) {
    e.Resets? && e.activity == activity && (e.only.None? || e.only.value == student)
  }

  predicate Shut(s: State, student: string, activity: nat, bound: nat) {
    && HasFinalized(s, student, activity)
    && forall id | id in s.sessions && Owns(s.sessions[id], student, activity) :: id < bound
  }

  lemma StaysFinalized(s: State, e: Event, student: string, activity: nat, id: nat)
    requires Inv(s) && !ResetsFor(e, student, activity)
    requires id in s.sessions && Owns(s.sessions[id], student, activity) && s.sessions[id].finalizedAt.Some?
    ensures HasFinalized(Step(s, e), student, activity)
  {
    hide DispatchFits, DueFits, QueueFits, IsLatest, DueSessions, DueReminders, DueSummaries, IsLate;
    assert RowFits(s, id);
    RowStays(s, e, id);
    hide Step;
    StepIsLater(s, e, id);
  }

  /** Only a reset deletes. */
  lemma RowStays(s: State, e: Event, id: nat)
    requires id in s.sessions
    requires e.Resets? ==> s.sessions[id].activity != e.activity || (e.only.Some? && e.only.value != s.sessions[id].student)
    ensures id in Step(s, e).sessions
  {
    hide HasFinalized, IsLate, IsLatest, DueSessions, DueReminders, DueSummaries;
  }

  /** A new row belongs to the student and activity of an opening the rules let through. */
  lemma NewRow(s: State, e: Event, id: nat)
    requires Inv(s) && id in Step(s, e).sessions && id !in s.sessions
    ensures var r := Step(s, e).sessions[id]; !HasFinalized(s, r.student, r.activity) && id == s.nextId
  {
    hide Inv, IsLate, IsLatest, DueSessions, DueReminders, DueSummaries, HasFinalized;
  }

  lemma StepStaysShut(s: State, e: Event, student: string, activity: nat, bound: nat)
    requires Inv(s) && Shut(s, student, activity, bound) && !ResetsFor(e, student, activity)
    ensures Shut(Step(s, e), student, activity, bound)
  {
    hide Step, Inv;
    var t := Step(s, e);
    var id :| id in s.sessions && Owns(s.sessions[id], student, activity) && s.sessions[id].finalizedAt.Some?;
    StaysFinalized(s, e, student, activity, id);
    forall j | j in t.sessions && Owns(t.sessions[j], student, activity) ensures j < bound {
      if j in s.sessions { SameOwner(s, e, j); } else { NewRow(s, e, j); }
    }
  }

  lemma SameOwner(s: State, e: Event, id: nat)
    requires Inv(s) && id in s.sessions && id in Step(s, e).sessions
    ensures Step(s, e).sessions[id].student == s.sessions[id].student
    ensures Step(s, e).sessions[id].activity == s.sessions[id].activity
  {
    hide Step;
    assert RowFits(s, id);
    StepIsLater(s, e, id);
  }

  /** Once a student has a finalized session of an activity, no further session of that student is created there until
      a reset that covers the student. */
  lemma {:induction false} NoSessionAfterFinalization(now: int, activities: map<nat, Activity>, es: seq<Event>, n: nat,
                                                      student: string, activity: nat)
    requires n <= |es| && HasFinalized(Reach(Start(now, activities), es[..n]), student, activity)
    requires forall i | n <= i < |es| :: !ResetsFor(es[i], student, activity)
    ensures Shut(Reach(Start(now, activities), es), student, activity, Reach(Start(now, activities), es[..n]).nextId)
    decreases |es|
  {
    hide Step, Inv, Start, HasFinalized;
    if n == |es| {
      assert es[..n] == es;
      forall id | id in Reach(Start(now, activities), es).sessions ensures id < Reach(Start(now, activities), es).nextId {
        StartedBelow(now, activities, es, id);
      }
    } else {
      var past := es[..|es| - 1];
      assert past[..n] == es[..n];
      NoSessionAfterFinalization(now, activities, past, n, student, activity);
      Reachable(now, activities, past);
      StepStaysShut(Reach(Start(now, activities), past), es[|es| - 1], student, activity,
                    Reach(Start(now, activities), es[..n]).nextId);
    }
  }

  // ----- one reminder batch, one summary -----

  /** How often `e` was logged since the activity was last reset. */
  function SinceReset(log: seq<Entry>, e: Entry, activity: nat): nat {
    if log == [] then 0
    else if log[|log| - 1] == WasReset(activity) then 0
    else SinceReset(log[..|log| - 1], e, activity) + if log[|log| - 1] == e then 1 else 0
  }

  /** Mail that has gone out since the last reset is marked. */
  predicate MailFits(s: State, activity: nat) {
    activity in s.activities ==>
      && SinceReset(s.log, ReminderBatch(activity), activity) <= (if s.activities[activity].reminded then 1 else 0)
      && SinceReset(s.log, Summary(activity), activity) <= (if s.activities[activity].summarised then 1 else 0)
  }

  lemma LogOne(log: seq<Entry>, x: Entry, activity: nat)
    ensures var more := log + [x];
            && SinceReset(more, ReminderBatch(activity), activity)
               == (if x == WasReset(activity) then 0
                   else SinceReset(log, ReminderBatch(activity), activity) + if x == ReminderBatch(activity) then 1 else 0)
            && SinceReset(more, Summary(activity), activity)
               == (if x == WasReset(activity) then 0
                   else SinceReset(log, Summary(activity), activity) + if x == Summary(activity) then 1 else 0)
  {
    assert (log + [x])[..|log|] == log;
  }

  lemma StepKeepsMail(s: State, e: Event, activity: nat)
    requires MailFits(s, activity)
    ensures MailFits(Step(s, e), activity)
  {
    hide SinceReset, HasFinalized, IsLate, IsLatest, DueSessions, DueReminders, DueSummaries, Without, Dispatch;
    match e
    case WrapsUp(id, enqueue) =>
      if id in s.sessions { DispatchKeepsMail(s, id, s.sessions[id].(resumable := true), enqueue, activity); }
    case ForceFinalizes(id, seen) =>
      if id in s.sessions { DispatchKeepsMail(s, id, s.sessions[id].(finalizedAt := Some(seen)), true, activity); }
    case WorkerEnds(_) => if s.working.Some? { LogOne(s.log, Worked(s.working.value), activity); }
    case ReEvaluates(id) => LogOne(s.log, Requeued(id), activity);
    case Resets(a, _) => LogOne(s.log, WasReset(a), activity);
    case Reminds(a) => LogOne(s.log, ReminderBatch(a), activity);
    case Summarises(a) => LogOne(s.log, Summary(a), activity);
    case _ =>
  }

  lemma DispatchKeepsMail(s: State, id: nat, r: Session, enqueue: bool, activity: nat)
    requires MailFits(s, activity)
    ensures MailFits(Dispatch(s, id, r, enqueue), activity)
  {
    hide SinceReset;
    LogOne(s.log, Dispatched(id), activity);
    LogOne(s.log + [Dispatched(id)], AutoQueued(id), activity);
  }

  /** Between two resets of an activity at most one reminder batch and one summary go out, however the scans and sends
      interleave. */
  lemma {:induction false} MailGoesOutOnce(now: int, activities: map<nat, Activity>, es: seq<Event>, activity: nat)
    requires activity in activities
    ensures var s := Reach(Start(now, activities), es);
            && activity in s.activities && MailFits(s, activity)
            && SinceReset(s.log, ReminderBatch(activity), activity) <= 1
            && SinceReset(s.log, Summary(activity), activity) <= 1
    decreases |es|
  {
    if es != [] {
      hide Step, MailFits;
      MailGoesOutOnce(now, activities, es[..|es| - 1], activity);
      StepKeepsMail(Reach(Start(now, activities), es[..|es| - 1]), es[|es| - 1], activity);
      ActivityStays(Reach(Start(now, activities), es[..|es| - 1]), es[|es| - 1], activity);
      Counts(Reach(Start(now, activities), es), activity);
    }
  }

  lemma Counts(s: State, activity: nat)
    requires MailFits(s, activity) && activity in s.activities
    ensures SinceReset(s.log, ReminderBatch(activity), activity) <= 1
    ensures SinceReset(s.log, Summary(activity), activity) <= 1
  {
    hide SinceReset;
  }

  lemma ActivityStays(s: State, e: Event, activity: nat)
    requires activity in s.activities
    ensures activity in Step(s, e).activities
  {
    hide HasFinalized, IsLate, IsLatest, DueSessions, DueReminders, DueSummaries, Without;
  }

  // ----- the deadline sweep -----

  /** A scan and the transaction for one of its rows dispatch exactly the sessions left in progress past a deadline
      their student had started before, with something said. */
  lemma SweepDispatchesIff(s: State, id: nat, deadline: int)
    requires id in s.sessions && s.sessions[id].status == IN_PROGRESS
    requires DeadlineOf(s, s.sessions[id]) == Some(deadline) && (id, deadline) !in s.due
    ensures var r := Step(Step(s, ScansDeadlines), ForceFinalizes(id, deadline)).sessions[id];
            && (r.status == PENDING_EVALUATION <==> s.sessions[id].engaged && s.sessions[id].startedAt <= deadline <= s.now)
            && (r.status == PENDING_EVALUATION ==> r.finalizedAt == Some(deadline))
            && (r.status != PENDING_EVALUATION ==> r == s.sessions[id])
  {
    var scanned := Step(s, ScansDeadlines);
    assert (id, deadline) in scanned.due <==> IsDue(s, s.sessions[id]);
  }

  /** A session finalized late is left undispatched by its own wrap-up, but the sweep then moves its mark back to the
      deadline and dispatches it after all: the mark of a session still in progress is not final. */
  lemma LateSessionIsBackdated(now: int, activities: map<nat, Activity>, es: seq<Event>, id: nat, deadline: int)
    requires var s := Reach(Start(now, activities), es);
             && id in s.sessions && s.sessions[id].status == IN_PROGRESS && s.sessions[id].engaged
             && DeadlineOf(s, s.sessions[id]) == Some(deadline) && IsLate(s, s.sessions[id])
    ensures var s := Reach(Start(now, activities), es);
            var t := Reach(s, [WrapsUp(id, true), ScansDeadlines, ForceFinalizes(id, deadline)]);
            && Step(s, WrapsUp(id, true)).sessions[id] == s.sessions[id].(resumable := true)
            && id in t.sessions && t.sessions[id].finalizedAt == Some(deadline)
            && deadline < s.sessions[id].finalizedAt.value
            && t.sessions[id].status == PENDING_EVALUATION && t.queue == s.queue + [id]
  {
    hide Reach;
    var s := Reach(Start(now, activities), es);
    Reachable(now, activities, es);
    assert RowFits(s, id);
    Reach3(s, WrapsUp(id, true), ScansDeadlines, ForceFinalizes(id, deadline));
    var wrapped := Step(s, WrapsUp(id, true));
    var scanned := Step(wrapped, ScansDeadlines);
    assert IsDue(wrapped, wrapped.sessions[id]);
    assert (id, deadline) in scanned.due;
  }

  lemma Reach3(s: State, a: Event, b: Event, c: Event)
    ensures Reach(s, [a, b, c]) == Step(Step(Step(s, a), b), c)
  {
    hide Step;
    assert [a, b, c][..2] == [a, b] && [a, b][..1] == [a] && [a][..0] == [];
    assert Reach(s, [a]) == Step(s, a);
    assert Reach(s, [a, b]) == Step(Step(s, a), b);
  }

  // ----- finalized but not dispatched -----

  /** What happens without a connection, an administrator or a teacher. */
  predicate Automatic(e: Event) {
    || e.Tick? || e.ScansDeadlines? || e.ForceFinalizes? || e.WorkerTakes? || e.WorkerEnds?
    || e.ScansReminders? || e.Reminds? || e.ScansSummaries? || e.Summarises?
  }

  predicate AllAutomatic(es: seq<Event>) {
    forall i | 0 <= i < |es| :: Automatic(es[i])
  }

  /** A sweep has found the session, or will. */
  ghost predicate SweepReaches(s: State, id: nat)
    requires id in s.sessions
  {
    (exists d :: (id, d) in s.due) || (s.sessions[id].engaged && DeadlineOf(s, s.sessions[id]).Some?)
  }

  ghost predicate Stranded(s: State, id: nat) {
    id in s.sessions && s.sessions[id].status == IN_PROGRESS && !SweepReaches(s, id)
  }

  lemma StaysStranded(s: State, e: Event, id: nat)
    requires Inv(s) && Stranded(s, id) && Automatic(e)
    ensures Stranded(Step(s, e), id)
  {
    hide DispatchFits, DueFits, RowFits, IsLate, HasFinalized, IsLatest, DueReminders, DueSummaries, Without;
    if s.working.Some? { assert QueueFits(s, s.working.value); }
    hide QueueFits;
    var t := Step(s, e);
    assert t.sessions[id] == s.sessions[id] && DeadlineOf(t, t.sessions[id]) == DeadlineOf(s, s.sessions[id]);
  }

  lemma {:induction false} StrandedForGood(s: State, es: seq<Event>, id: nat)
    requires Inv(s) && Stranded(s, id) && AllAutomatic(es)
    ensures Inv(Reach(s, es)) && Stranded(Reach(s, es), id)
    decreases |es|
  {
    hide Inv, Stranded, Step, Automatic;
    if es != [] {
      var past := es[..|es| - 1];
      StrandedForGood(s, past, id);
      StepKeeps(Reach(s, past), es[|es| - 1]);
      StaysStranded(Reach(s, past), es[|es| - 1], id);
    }
  }

  /** Leaving IN_PROGRESS by what happens on its own. */
  ghost predicate MayBeDispatched(s: State, id: nat) {
    exists es :: AllAutomatic(es) && id in Reach(s, es).sessions && Reach(s, es).sessions[id].status != IN_PROGRESS
  }

  lemma SweepDispatches(s: State, id: nat)
    requires Inv(s) && id in s.sessions && s.sessions[id].status == IN_PROGRESS && SweepReaches(s, id)
    ensures MayBeDispatched(s, id)
  {
    hide Inv;
    if d :| (id, d) in s.due {
      var es := [ForceFinalizes(id, d)];
      ReachOne(s, es[0]);
      assert AllAutomatic(es) && Reach(s, es).sessions[id].status == PENDING_EVALUATION;
    } else {
      var d := DeadlineOf(s, s.sessions[id]).value;
      var wait: nat := if d > s.now then d - s.now else 0;
      var es := [Tick(wait), ScansDeadlines, ForceFinalizes(id, d)];
      Reach3(s, es[0], es[1], es[2]);
      StartedInTime(s, id);
      var later := s.(now := s.now + wait);
      assert IsDue(later, s.sessions[id]);
      assert (id, d) in DueSessions(later);
      assert Reach(s, es).sessions[id].status == PENDING_EVALUATION;
      assert AllAutomatic(es);
    }
  }

  lemma StartedInTime(s: State, id: nat)
    requires Inv(s) && id in s.sessions && DeadlineOf(s, s.sessions[id]).Some?
    ensures s.sessions[id].startedAt <= DeadlineOf(s, s.sessions[id]).value
  {
    assert RowFits(s, id);
  }

  lemma ReachOne(s: State, e: Event)
    ensures Reach(s, [e]) == Step(s, e)
  {
    hide Step;
    assert [e][..0] == [];
  }

  /** When a session in progress, finalized or not, still leaves that state without an administrator or a teacher: while
      its wrap-up is still to come, exactly when it is finalized in time; once no connection will wrap it up, exactly when
      a sweep has found it or will, for it has a deadline and something was said. */
  lemma StillDispatchedIff(now: int, activities: map<nat, Activity>, es: seq<Event>, id: nat, autoEvaluate: bool)
    requires var s := Reach(Start(now, activities), es); id in s.sessions && s.sessions[id].status == IN_PROGRESS
    ensures var s := Reach(Start(now, activities), es);
            && (Step(s, WrapsUp(id, autoEvaluate)).sessions[id].status != IN_PROGRESS
                <==> s.sessions[id].finalizedAt.Some? && !IsLate(s, s.sessions[id]))
            && (MayBeDispatched(s, id) <==> SweepReaches(s, id))
  {
    hide Reach, SweepReaches, MayBeDispatched, Inv;
    Reachable(now, activities, es);
    var s := Reach(Start(now, activities), es);
    if SweepReaches(s, id) { SweepDispatches(s, id); } else { NothingDispatches(s, id); }
  }

  lemma NothingDispatches(s: State, id: nat)
    requires Inv(s) && Stranded(s, id)
    ensures !MayBeDispatched(s, id)
  {
    hide Inv, AllAutomatic, SweepReaches, Reach;
    forall es | AllAutomatic(es) ensures Stranded(Reach(s, es), id) { StrandedForGood(s, es, id); }
  }

  const OPEN_ENDED := map[7 := Activity(PUBLISHED, None, false, false)]

  /** A turn that outlives its dropped connection and finalizes the session after the wrap-up strands it when there is no
      deadline: the student is refused from then on, and nothing dispatches it on its own. */
  lemma FinalizedAfterWrapUp(student: string, found: Option<nat>)
    ensures var s := Reach(Start(0, OPEN_ENDED), [Opens(student, 7, None), Engages(0), WrapsUp(0, true), Finalizes(0)]);
            && 0 in s.sessions && s.sessions[0].finalizedAt == Some(0) && s.sessions[0].status == IN_PROGRESS
            && Step(s, Opens(student, 7, found)) == s && !MayBeDispatched(s, 0)
  {
    var es := [Opens(student, 7, None), Engages(0), WrapsUp(0, true), Finalizes(0)];
    var s0 := Start(0, OPEN_ENDED);
    var s1 := Step(s0, es[0]);
    assert s1.sessions == map[0 := Session(7, student, IN_PROGRESS, 0, None, false, false)] && s1.activities == OPEN_ENDED;
    var s3 := Step(Step(s1, es[1]), es[2]);
    assert s3.sessions[0] == Session(7, student, IN_PROGRESS, 0, None, true, true) && s3.due == {};
    var s4 := Step(s3, es[3]);
    assert s4.sessions[0] == Session(7, student, IN_PROGRESS, 0, Some(0), true, true) && s4.due == {};
    Reach4(s0, es[0], es[1], es[2], es[3]);
    assert HasFinalized(s4, student, 7);
    Reachable(0, OPEN_ENDED, es);
    NothingDispatches(s4, 0);
  }

  lemma Reach4(s: State, a: Event, b: Event, c: Event, d: Event)
    ensures Reach(s, [a, b, c, d]) == Step(Step(Step(Step(s, a), b), c), d)
  {
    hide Step;
    assert [a, b, c, d][..3] == [a, b, c];
    Reach3(s, a, b, c);
  }
}
