/** Chat sessions from opening to evaluation, and the actors that share their rows: the connection (session.py), the
    deadline worker (deadline_reminders.py), the evaluation worker (metrics_evaluator.py), the administrator (admin.py)
    and the teacher (activities.py). One event is one database transaction. */
module Lifecycle {
  import opened Text

  // ----- rows -----

  datatype Status = IN_PROGRESS | PENDING_EVALUATION | EVALUATED | EVALUATION_FAILED

  /** `engaged`: some user message is stored. `resumable`: a policy snapshot is stored. */
  datatype Session = Session(
    activity: nat,
    student: string,
    status: Status,
    startedAt: int,
    finalizedAt: Option<int>,
    resumable: bool,
    engaged: bool)

  datatype ActivityStatus = DRAFT | PUBLISHED | ARCHIVED

  datatype Activity = Activity(status: ActivityStatus, deadline: Option<int>, reminded: bool, summarised: bool)

  datatype Entry =
    | Dispatched(id: nat)
    | AutoQueued(id: nat)
    | Requeued(id: nat)
    | Worked(id: nat)
    | ReminderBatch(activity: nat)
    | Summary(activity: nat)
    | WasReset(activity: nat)

  /** `due`: what deadline scans have found and may still act on, with the deadline they saw. */
  datatype State = State(
    now: int,
    nextId: nat,
    sessions: map<nat, Session>,
    activities: map<nat, Activity>,
    due: set<(nat, int)>,
    dueReminder: set<nat>,
    dueSummary: set<nat>,
    queue: seq<nat>,
    working: Option<nat>,
    log: seq<Entry>)

  datatype Outcome = Evaluates | Fails

  datatype Event =
    | Tick(seconds: nat)
    | Opens(student: string, activity: nat, found: Option<nat>)
    | Engages(id: nat)
    | Persists(id: nat)
    | Finalizes(id: nat)
    | WrapsUp(id: nat, autoEvaluate: bool)
    | ScansDeadlines
    | ForceFinalizes(id: nat, seen: int)
    | WorkerTakes
    | WorkerEnds(outcome: Outcome)
    | ReEvaluates(id: nat)
    | EditsDeadline(activity: nat, deadline: Option<int>)
    | TogglesStatus(activity: nat, status: ActivityStatus)
    | Resets(activity: nat, only: Option<string>)
    | ScansReminders
    | Reminds(activity: nat)
    | ScansSummaries
    | Summarises(activity: nat)

  const RESET_SPAN := 30 * 24 * 60 * 60
  const REMINDER_WINDOW := 30 * 60

  // ----- what the queries select -----

  predicate Owns(r: Session, student: string, activity: nat) {
    r.student == student && r.activity == activity
  }

  predicate HasFinalized(s: State, student: string, activity: nat) {
    exists id | id in s.sessions :: Owns(s.sessions[id], student, activity) && s.sessions[id].finalizedAt.Some?
  }

  predicate Expired(s: State, activity: nat) {
    activity in s.activities && s.activities[activity].deadline.Some? && s.activities[activity].deadline.value < s.now
  }

  predicate CanResume(s: State, id: nat, student: string, activity: nat) {
    && id in s.sessions && Owns(s.sessions[id], student, activity)
    && s.sessions[id].finalizedAt.None? && s.sessions[id].resumable
  }

  /** What the resume query may return: a most recently started resumable session, if there is one. */
  ghost predicate IsLatest(s: State, student: string, activity: nat, found: Option<nat>) {
    match found
    case None => forall id :: !CanResume(s, id, student, activity)
    case Some(id) =>
      && CanResume(s, id, student, activity)
      && forall j :: CanResume(s, j, student, activity) ==> s.sessions[j].startedAt <= s.sessions[id].startedAt
  }

  function DeadlineOf(s: State, r: Session): Option<int> {
    if r.activity in s.activities then s.activities[r.activity].deadline else None
  }

  predicate IsLate(s: State, r: Session) {
    r.finalizedAt.Some? && DeadlineOf(s, r).Some? && r.finalizedAt.value > DeadlineOf(s, r).value
  }

  /** Left in progress past a deadline the student had started before, with something said. */
  predicate IsDue(s: State, r: Session) {
    && r.status == IN_PROGRESS && DeadlineOf(s, r).Some?
    && r.startedAt <= DeadlineOf(s, r).value <= s.now && r.engaged
  }

  function DueSessions(s: State): set<(nat, int)> {
    set id | id in s.sessions && IsDue(s, s.sessions[id]) :: (id, DeadlineOf(s, s.sessions[id]).value)
  }

  function DueReminders(s: State): set<nat> {
    set a | a in s.activities && var r := s.activities[a];
            r.status == PUBLISHED && !r.reminded && r.deadline.Some? && s.now < r.deadline.value <= s.now + REMINDER_WINDOW
  }

  function DueSummaries(s: State): set<nat> {
    set a | a in s.activities && var r := s.activities[a]; !r.summarised && r.deadline.Some? && r.deadline.value <= s.now
  }

  function Without(sessions: map<nat, Session>, activity: nat, student: Option<string>): map<nat, Session> {
    map id | id in sessions && !(sessions[id].activity == activity && (student.None? || sessions[id].student == student.value))
      :: sessions[id]
  }

  // ----- transactions -----

  function Put(s: State, id: nat, r: Session): State {
    s.(sessions := s.sessions[id := r])
  }

  function Opened(s: State, student: string, activity: nat, found: Option<nat>): State {
    if HasFinalized(s, student, activity) || Expired(s, activity) || activity !in s.activities then s
    else if found.Some? && found.value in s.sessions then
      Put(s, found.value, s.sessions[found.value].(status := IN_PROGRESS))
    else
      Put(s, s.nextId, Session(activity, student, IN_PROGRESS, s.now, None, false, false)).(nextId := s.nextId + 1)
  }

  function Finalized(s: State, id: nat): State
    requires id in s.sessions
  {
    if s.sessions[id].finalizedAt.None? then Put(s, id, s.sessions[id].(finalizedAt := Some(s.now))) else s
  }

  function Dispatch(s: State, id: nat, r: Session, enqueue: bool): State {
    var sent := Put(s, id, r.(status := PENDING_EVALUATION)).(log := s.log + [Dispatched(id)]);
    if enqueue then sent.(queue := s.queue + [id], log := sent.log + [AutoQueued(id)]) else sent
  }

  /** Snapshot, then dispatch a finalized session that is neither late nor dispatched already. */
  function WrappedUp(s: State, id: nat, autoEvaluate: bool): State
    requires id in s.sessions
  {
    var r := s.sessions[id].(resumable := true);
    if r.finalizedAt.Some? && r.status == IN_PROGRESS && !IsLate(s, r) then Dispatch(s, id, r, autoEvaluate)
    else Put(s, id, r)
  }

  /** Only a row still in progress; the deadline is the one the scan saw, and replaces any earlier mark. */
  function Forced(s: State, id: nat, deadline: int): State
    requires id in s.sessions
  {
    var r := s.sessions[id];
    if r.status != IN_PROGRESS then s else Dispatch(s, id, r.(finalizedAt := Some(deadline)), true)
  }

  /** A row may have been deleted meanwhile; one without a user message is left alone by a completed evaluation. */
  function WorkerEnded(s: State, outcome: Outcome): State {
    if s.working.None? then s
    else
      var id := s.working.value;
      var over := s.(working := None, log := s.log + [Worked(id)]);
      if id !in s.sessions then over
      else match outcome
        case Evaluates => if s.sessions[id].engaged then Put(over, id, s.sessions[id].(status := EVALUATED)) else over
        case Fails => Put(over, id, s.sessions[id].(status := EVALUATION_FAILED))
  }

  function ReQueued(s: State, id: nat): State
    requires id in s.sessions
  {
    if s.sessions[id].finalizedAt.None? then s
    else Put(s, id, s.sessions[id].(status := PENDING_EVALUATION)).(queue := s.queue + [id], log := s.log + [Requeued(id)])
  }

  /** Only a draft, and only to a future deadline or none. */
  function DeadlineEdited(s: State, activity: nat, deadline: Option<int>): State
    requires activity in s.activities
  {
    var a := s.activities[activity];
    if a.status != DRAFT || (deadline.Some? && deadline.value <= s.now) then s
    else s.(activities := s.activities[activity := a.(deadline := deadline)])
  }

  function WasResetTo(s: State, activity: nat, student: Option<string>): State
    requires activity in s.activities
  {
    s.(activities := s.activities[activity := s.activities[activity].(deadline := Some(s.now + RESET_SPAN),
                                                                    reminded := false, summarised := false)],
       sessions := Without(s.sessions, activity, student),
       log := s.log + [WasReset(activity)])
  }

  function Reminded(s: State, activity: nat): State
    requires activity in s.activities
  {
    if s.activities[activity].reminded then s
    else s.(activities := s.activities[activity := s.activities[activity].(reminded := true)],
            log := s.log + [ReminderBatch(activity)])
  }

  function Summarised(s: State, activity: nat): State
    requires activity in s.activities
  {
    if s.activities[activity].summarised || s.activities[activity].deadline.None? then s
    else s.(activities := s.activities[activity := s.activities[activity].(summarised := true)],
            log := s.log + [Summary(activity)])
  }

  /** An event that cannot happen in a state leaves it as it is. */
  ghost function Step(s: State, e: Event): State {
    match e
    case Tick(seconds) => s.(now := s.now + seconds)
    case Opens(student, activity, found) =>
      if IsLatest(s, student, activity, found) then Opened(s, student, activity, found) else s
    case Engages(id) => if id in s.sessions then Put(s, id, s.sessions[id].(engaged := true)) else s
    case Persists(id) => if id in s.sessions then Put(s, id, s.sessions[id].(resumable := true)) else s
    case Finalizes(id) => if id in s.sessions then Finalized(s, id) else s
    case WrapsUp(id, autoEvaluate) => if id in s.sessions then WrappedUp(s, id, autoEvaluate) else s
    case ScansDeadlines => s.(due := s.due + DueSessions(s))
    case ForceFinalizes(id, seen) => if (id, seen) in s.due && id in s.sessions then Forced(s, id, seen) else s
    case WorkerTakes =>
      if s.working.None? && s.queue != [] then s.(working := Some(s.queue[0]), queue := s.queue[1..]) else s
    case WorkerEnds(outcome) => WorkerEnded(s, outcome)
    case ReEvaluates(id) => if id in s.sessions then ReQueued(s, id) else s
    case EditsDeadline(activity, deadline) => if activity in s.activities then DeadlineEdited(s, activity, deadline) else s
    case TogglesStatus(activity, status) =>
      if activity in s.activities
      then s.(activities := s.activities[activity := s.activities[activity].(status := status)]) else s
    case Resets(activity, only) => if activity in s.activities then WasResetTo(s, activity, only) else s
    case ScansReminders => s.(dueReminder := s.dueReminder + DueReminders(s))
    case Reminds(activity) => if activity in s.dueReminder && activity in s.activities then Reminded(s, activity) else s
    case ScansSummaries => s.(dueSummary := s.dueSummary + DueSummaries(s))
    case Summarises(activity) => if activity in s.dueSummary && activity in s.activities then Summarised(s, activity) else s
  }

  function Start(now: int, activities: map<nat, Activity>): State {
    State(now, 0, map[], activities, {}, {}, {}, [], None, [])
  }

  ghost function Reach(s: State, es: seq<Event>): State {
    if es == [] then s else Step(Reach(s, es[..|es| - 1]), es[|es| - 1])
  }

  // ----- the invariant -----

  predicate RowFits(s: State, id: nat)
    requires id in s.sessions
  {
    var r := s.sessions[id];
    && id < s.nextId && r.startedAt <= s.now
    && (r.finalizedAt.Some? ==> r.finalizedAt.value <= s.now)
    && (r.status != IN_PROGRESS ==> r.finalizedAt.Some?)
    && (DeadlineOf(s, r).Some? ==> r.startedAt <= DeadlineOf(s, r).value)
  }

  predicate RowsFit(s: State) {
    forall id | id in s.sessions :: RowFits(s, id)
  }

  /** A deadline seen by a scan has passed, and the deadline now in force is no earlier. */
  ghost predicate DueFits(s: State) {
    forall id, d | (id, d) in s.due ::
      && d <= s.now && id < s.nextId
      && (id in s.sessions && DeadlineOf(s, s.sessions[id]).Some? ==> d <= DeadlineOf(s, s.sessions[id]).value)
  }

  function Times(s: State, e: Entry): nat {
    multiset(s.log)[e]
  }

  /** A dispatched session is finalized in time, for good; only an administrator gets a late one out of IN_PROGRESS. */
  predicate DispatchFits(s: State, id: nat) {
    && Times(s, AutoQueued(id)) <= Times(s, Dispatched(id)) <= 1
    && (Times(s, Dispatched(id)) == 1 ==>
          id < s.nextId && (id in s.sessions ==> s.sessions[id].status != IN_PROGRESS && !IsLate(s, s.sessions[id])))
    && (id in s.sessions && s.sessions[id].status != IN_PROGRESS ==> Times(s, Dispatched(id)) + Times(s, Requeued(id)) >= 1)
  }

  function Holds(o: Option<nat>, id: nat): nat {
    if o == Some(id) then 1 else 0
  }

  /** Every request for evaluation is queued, being worked on, or worked off; only finalized rows are in the pipeline. */
  predicate QueueFits(s: State, id: nat) {
    && Times(s, AutoQueued(id)) + Times(s, Requeued(id))
       == multiset(s.queue)[id] + Holds(s.working, id) + Times(s, Worked(id))
    && (id in s.queue || s.working == Some(id) ==> id < s.nextId && (id in s.sessions ==> s.sessions[id].status != IN_PROGRESS))
  }

  ghost predicate Inv(s: State) {
    && RowsFit(s) && DueFits(s)
    && (forall id :: DispatchFits(s, id))
    && (forall id :: QueueFits(s, id))
  }

  // ----- preserved by every event -----

  /** A row rewritten without leaving or entering IN_PROGRESS, and without touching a dispatched row's mark. */
  lemma PutKeeps(s: State, id: nat, r: Session)
    requires Inv(s) && id in s.sessions
    requires r.activity == s.sessions[id].activity && r.startedAt == s.sessions[id].startedAt
    requires (r.status == IN_PROGRESS) == (s.sessions[id].status == IN_PROGRESS)
    requires r.finalizedAt == s.sessions[id].finalizedAt
          || (s.sessions[id].status == IN_PROGRESS && r.finalizedAt == Some(s.now))
    ensures Inv(Put(s, id, r))
  {
    var t := Put(s, id, r);
    forall j ensures DispatchFits(t, j) { assert DispatchFits(s, j); }
    forall j ensures QueueFits(t, j) { assert QueueFits(s, j); }
  }

  lemma OpenKeeps(s: State, student: string, activity: nat, found: Option<nat>)
    requires Inv(s) && IsLatest(s, student, activity, found)
    ensures Inv(Opened(s, student, activity, found))
  {
    var t := Opened(s, student, activity, found);
    if t != s && found.Some? {
      assert RowFits(s, found.value);
      PutKeeps(s, found.value, s.sessions[found.value].(status := IN_PROGRESS));
    } else if t != s {
      forall j ensures DispatchFits(t, j) { assert DispatchFits(s, j); }
      forall j ensures QueueFits(t, j) { assert QueueFits(s, j); }
    }
  }

  /** Dispatching a row still in progress, with a mark that is not late. */
  lemma DispatchKeeps(s: State, id: nat, r: Session, enqueue: bool)
    requires Inv(s) && id in s.sessions && s.sessions[id].status == IN_PROGRESS
    requires r.activity == s.sessions[id].activity && r.startedAt == s.sessions[id].startedAt
    requires r.finalizedAt.Some? && r.finalizedAt.value <= s.now && !IsLate(s, r)
    ensures Inv(Dispatch(s, id, r, enqueue))
  {
    hide DispatchFits, QueueFits;
    var t := Dispatch(s, id, r, enqueue);
    assert RowFits(s, id);
    forall j ensures DispatchFits(t, j) { DispatchedOnce(s, id, r, enqueue, j); }
    forall j ensures QueueFits(t, j) { DispatchQueued(s, id, r, enqueue, j); }
  }

  lemma DispatchedOnce(s: State, id: nat, r: Session, enqueue: bool, j: nat)
    requires DispatchFits(s, id) && DispatchFits(s, j) && id < s.nextId
    requires id in s.sessions && s.sessions[id].status == IN_PROGRESS && r.finalizedAt.Some? && !IsLate(s, r)
    ensures DispatchFits(Dispatch(s, id, r, enqueue), j)
  {
  }

  lemma DispatchQueued(s: State, id: nat, r: Session, enqueue: bool, j: nat)
    requires Inv(s) && id in s.sessions
    ensures QueueFits(Dispatch(s, id, r, enqueue), j)
  {
    hide DispatchFits;
    assert QueueFits(s, j) && RowFits(s, id);
  }

  lemma WrapUpKeeps(s: State, id: nat, autoEvaluate: bool)
    requires Inv(s) && id in s.sessions
    ensures Inv(WrappedUp(s, id, autoEvaluate))
  {
    hide DispatchFits, QueueFits;
    var r := s.sessions[id].(resumable := true);
    assert RowFits(s, id);
    if r.finalizedAt.Some? && r.status == IN_PROGRESS && !IsLate(s, r) {
      DispatchKeeps(s, id, r, autoEvaluate);
    } else {
      PutKeeps(s, id, r);
    }
  }

  lemma ForceKeeps(s: State, id: nat, deadline: int)
    requires Inv(s) && id in s.sessions && (id, deadline) in s.due
    ensures Inv(Forced(s, id, deadline))
  {
    hide DispatchFits, QueueFits;
    if s.sessions[id].status == IN_PROGRESS {
      DispatchKeeps(s, id, s.sessions[id].(finalizedAt := Some(deadline)), true);
    }
  }

  lemma WorkerKeeps(s: State, outcome: Outcome)
    requires Inv(s)
    ensures Inv(WorkerEnded(s, outcome))
  {
    if s.working.Some? {
      var id := s.working.value;
      assert QueueFits(s, id);
      var over := s.(working := None, log := s.log + [Worked(id)]);
      forall j ensures DispatchFits(over, j) { assert DispatchFits(s, j); }
      forall j ensures QueueFits(over, j) { assert QueueFits(s, j); }
      hide DispatchFits, QueueFits;
      if id in s.sessions {
        assert RowFits(s, id);
        PutKeeps(over, id, s.sessions[id].(status := if outcome == Evaluates then EVALUATED else EVALUATION_FAILED));
      }
    }
  }

  lemma TakeKeeps(s: State)
    requires Inv(s) && s.working.None? && s.queue != []
    ensures Inv(s.(working := Some(s.queue[0]), queue := s.queue[1..]))
  {
    var t := s.(working := Some(s.queue[0]), queue := s.queue[1..]);
    assert s.queue == [s.queue[0]] + t.queue;
    forall j ensures DispatchFits(t, j) { assert DispatchFits(s, j); }
    hide DispatchFits;
    forall j ensures QueueFits(t, j) { assert QueueFits(s, j); }
  }

  lemma ReQueueKeeps(s: State, id: nat)
    requires Inv(s) && id in s.sessions
    ensures Inv(ReQueued(s, id))
  {
    hide DispatchFits, QueueFits;
    var t := ReQueued(s, id);
    assert RowFits(s, id);
    forall j ensures DispatchFits(t, j) { ReQueuedDispatch(s, id, j); }
    forall j ensures QueueFits(t, j) { ReQueuedQueue(s, id, j); }
  }

  lemma ReQueuedDispatch(s: State, id: nat, j: nat)
    requires id in s.sessions && RowFits(s, id) && DispatchFits(s, j)
    ensures DispatchFits(ReQueued(s, id), j)
  {
  }

  lemma ReQueuedQueue(s: State, id: nat, j: nat)
    requires id in s.sessions && RowFits(s, id) && QueueFits(s, j)
    ensures QueueFits(ReQueued(s, id), j)
  {
  }

  /** Moving a deadline into the future, or away, makes no finalized session late and outdates no scan. */
  lemma DeadlineKeeps(s: State, activity: nat, a: Activity)
    requires Inv(s) && activity in s.activities
    requires a.deadline == s.activities[activity].deadline || a.deadline.None? || a.deadline.value > s.now
    ensures Inv(s.(activities := s.activities[activity := a]))
  {
    var t := s.(activities := s.activities[activity := a]);
    forall j ensures DispatchFits(t, j) {
      assert DispatchFits(s, j);
      if j in s.sessions { assert RowFits(s, j); }
    }
    forall j ensures QueueFits(t, j) { assert QueueFits(s, j); }
  }

  lemma ResetKeeps(s: State, activity: nat, student: Option<string>)
    requires Inv(s) && activity in s.activities
    ensures Inv(WasResetTo(s, activity, student))
  {
    var t := WasResetTo(s, activity, student);
    var a := t.activities[activity];
    DeadlineKeeps(s, activity, a);
    var u := s.(activities := s.activities[activity := a]);
    forall j ensures DispatchFits(t, j) { assert DispatchFits(u, j); }
    forall j ensures QueueFits(t, j) { assert QueueFits(u, j); }
  }

  lemma ScanKeeps(s: State)
    requires Inv(s)
    ensures Inv(s.(due := s.due + DueSessions(s)))
  {
    var t := s.(due := s.due + DueSessions(s));
    forall j ensures DispatchFits(t, j) { assert DispatchFits(s, j); }
    forall j ensures QueueFits(t, j) { assert QueueFits(s, j); }
    forall id, d | (id, d) in t.due
      ensures d <= s.now && id < s.nextId
      ensures id in s.sessions && DeadlineOf(s, s.sessions[id]).Some? ==> d <= DeadlineOf(s, s.sessions[id]).value
    {
      if (id, d) in DueSessions(s) { assert RowFits(s, id); }
    }
  }

  /** Sending mail, marking it sent and letting time pass. */
  lemma MailKeeps(s: State, activity: nat, a: Activity, e: Entry)
    requires Inv(s) && activity in s.activities && a.deadline == s.activities[activity].deadline
    requires e.ReminderBatch? || e.Summary?
    ensures Inv(s.(activities := s.activities[activity := a], log := s.log + [e]))
  {
    DeadlineKeeps(s, activity, a);
    var u := s.(activities := s.activities[activity := a]);
    var t := s.(activities := s.activities[activity := a], log := s.log + [e]);
    forall j ensures DispatchFits(t, j) { assert DispatchFits(u, j); }
    forall j ensures QueueFits(t, j) { assert QueueFits(u, j); }
  }

  lemma TickKeeps(s: State, seconds: nat)
    requires Inv(s)
    ensures Inv(s.(now := s.now + seconds))
  {
    var t := s.(now := s.now + seconds);
    forall j ensures DispatchFits(t, j) { assert DispatchFits(s, j); }
    forall j ensures QueueFits(t, j) { assert QueueFits(s, j); }
    forall id | id in t.sessions ensures RowFits(t, id) { assert RowFits(s, id); }
  }

  lemma MailScanKeeps(s: State, t: State)
    requires Inv(s) && t == s.(dueReminder := t.dueReminder, dueSummary := t.dueSummary)
    ensures Inv(t)
  {
    forall j ensures DispatchFits(t, j) { assert DispatchFits(s, j); }
    forall j ensures QueueFits(t, j) { assert QueueFits(s, j); }
    forall id | id in t.sessions ensures RowFits(t, id) { assert RowFits(s, id); }
  }

  lemma StepKeeps(s: State, e: Event)
    requires Inv(s)
    ensures Inv(Step(s, e))
  {
    hide Inv, Opened, WrappedUp, Forced, WorkerEnded, ReQueued, WasResetTo, IsLatest, DueSessions;
    match e
    case Tick(seconds) => TickKeeps(s, seconds);
    case Opens(student, activity, found) =>
      if IsLatest(s, student, activity, found) { OpenKeeps(s, student, activity, found); }
    case Engages(id) => if id in s.sessions { PutKeeps(s, id, s.sessions[id].(engaged := true)); }
    case Persists(id) => if id in s.sessions { PutKeeps(s, id, s.sessions[id].(resumable := true)); }
    case Finalizes(id) => if id in s.sessions { FinalizeKeeps(s, id); }
    case WrapsUp(id, autoEvaluate) => if id in s.sessions { WrapUpKeeps(s, id, autoEvaluate); }
    case ScansDeadlines => ScanKeeps(s);
    case ForceFinalizes(id, seen) => if (id, seen) in s.due && id in s.sessions { ForceKeeps(s, id, seen); }
    case WorkerTakes => if s.working.None? && s.queue != [] { TakeKeeps(s); }
    case WorkerEnds(outcome) => WorkerKeeps(s, outcome);
    case ReEvaluates(id) => if id in s.sessions { ReQueueKeeps(s, id); }
    case EditsDeadline(activity, deadline) =>
      if activity in s.activities && DeadlineEdited(s, activity, deadline) != s {
        DeadlineKeeps(s, activity, s.activities[activity].(deadline := deadline));
      }
    case TogglesStatus(activity, status) =>
      if activity in s.activities { DeadlineKeeps(s, activity, s.activities[activity].(status := status)); }
    case Resets(activity, only) => if activity in s.activities { ResetKeeps(s, activity, only); }
    case ScansReminders => MailScanKeeps(s, Step(s, e));
    case Reminds(activity) =>
      if activity in s.activities {
        MailKeeps(s, activity, s.activities[activity].(reminded := true), ReminderBatch(activity));
      }
    case ScansSummaries => MailScanKeeps(s, Step(s, e));
    case Summarises(activity) =>
      if activity in s.activities {
        MailKeeps(s, activity, s.activities[activity].(summarised := true), Summary(activity));
      }
  }

  lemma FinalizeKeeps(s: State, id: nat)
    requires Inv(s) && id in s.sessions
    ensures Inv(Finalized(s, id))
  {
    assert RowFits(s, id);
    if s.sessions[id].finalizedAt.None? { PutKeeps(s, id, s.sessions[id].(finalizedAt := Some(s.now))); }
  }

  // ----- over every interleaving -----

  lemma {:induction false} Reachable(now: int, activities: map<nat, Activity>, es: seq<Event>)
    ensures Inv(Reach(Start(now, activities), es))
  {
    hide Step;
    if es == [] {
      var s := Start(now, activities);
      forall id ensures DispatchFits(s, id) && QueueFits(s, id) {}
    } else {
      hide Inv;
      Reachable(now, activities, es[..|es| - 1]);
      StepKeeps(Reach(Start(now, activities), es[..|es| - 1]), es[|es| - 1]);
    }
  }

  /** A session that has left IN_PROGRESS was finalized, and not in the future. */
  lemma StatusMeansFinalized(now: int, activities: map<nat, Activity>, es: seq<Event>, id: nat)
    requires var s := Reach(Start(now, activities), es); id in s.sessions && s.sessions[id].status != IN_PROGRESS
    ensures var s := Reach(Start(now, activities), es);
            s.sessions[id].finalizedAt.Some? && s.sessions[id].finalizedAt.value <= s.now
  {
    hide Reach;
    Reachable(now, activities, es);
    assert RowFits(Reach(Start(now, activities), es), id);
  }

  /** A session is dispatched at most once, and only to count as in time, whatever happens to the deadline later. */
  lemma DispatchedOnceInTime(now: int, activities: map<nat, Activity>, es: seq<Event>, id: nat)
    ensures var s := Reach(Start(now, activities), es);
            && Times(s, Dispatched(id)) <= 1
            && (Times(s, Dispatched(id)) == 1 && id in s.sessions ==> !IsLate(s, s.sessions[id]))
  {
    hide Reach;
    Reachable(now, activities, es);
    assert DispatchFits(Reach(Start(now, activities), es), id);
  }

  /** The evaluator starts on a session no more often than once plus the administrator's requests, and every request is
      queued, in hand or worked off. */
  lemma EvaluationsAccountedFor(now: int, activities: map<nat, Activity>, es: seq<Event>, id: nat)
    ensures var s := Reach(Start(now, activities), es);
            && multiset(s.queue)[id] + Holds(s.working, id) + Times(s, Worked(id))
               == Times(s, AutoQueued(id)) + Times(s, Requeued(id)) <= 1 + Times(s, Requeued(id))
  {
    hide Reach;
    Reachable(now, activities, es);
    var s := Reach(Start(now, activities), es);
    assert DispatchFits(s, id) && QueueFits(s, id);
  }

  /** No session ever counts as started after its activity's deadline: opening is refused then, and deadlines only move
      into the future. The sweep's filter on the start time excludes nothing. */
  lemma NoLateStarters(now: int, activities: map<nat, Activity>, es: seq<Event>, id: nat)
    requires var s := Reach(Start(now, activities), es); id in s.sessions
    ensures var s := Reach(Start(now, activities), es);
            var r := s.sessions[id];
            && (DeadlineOf(s, r).Some? ==> r.startedAt <= DeadlineOf(s, r).value)
            && (IsDue(s, r) <==> r.status == IN_PROGRESS && r.engaged && DeadlineOf(s, r).Some? && DeadlineOf(s, r).value <= s.now)
  {
    hide Reach;
    Reachable(now, activities, es);
    assert RowFits(Reach(Start(now, activities), es), id);
  }

  // ----- what never changes back -----

  /** The mark and the status a row keeps. */
  predicate Later(r: Session, q: Session) {
    && q.activity == r.activity && q.student == r.student && q.startedAt == r.startedAt
    && (r.status != IN_PROGRESS ==> q.status != IN_PROGRESS && q.finalizedAt == r.finalizedAt)
    && (r.finalizedAt.Some? ==> q.finalizedAt.Some?)
  }

  lemma StepIsLater(s: State, e: Event, id: nat)
    requires Inv(s) && id < s.nextId
    ensures s.nextId <= Step(s, e).nextId
    ensures id !in s.sessions ==> id !in Step(s, e).sessions
    ensures id in s.sessions && id in Step(s, e).sessions ==> Later(s.sessions[id], Step(s, e).sessions[id])
  {
    hide DispatchFits, DueFits, IsLatest, DueSessions, DueReminders, DueSummaries, IsLate, QueueFits;
    hide Opened, WorkerEnded, ReQueued, WrappedUp, Forced, WasResetTo, DeadlineEdited, Reminded, Summarised, Finalized, Later;
    if id in s.sessions { LaterSelf(s.sessions[id]); }
    match e
    case WrapsUp(j, autoEvaluate) => if j in s.sessions { WrapUpIsLater(s, j, autoEvaluate, id); }
    case ForceFinalizes(j, seen) => if j in s.sessions { ForcedIsLater(s, j, seen, id); }
    case Engages(j) => MarkIsLater(s, j, id);
    case Persists(j) => MarkIsLater(s, j, id);
    case Finalizes(j) => MarkIsLater(s, j, id);
    case Resets(activity, only) => if activity in s.activities { ResetIsLater(s, activity, only, id); }
    case Opens(student, activity, found) =>
      if IsLatest(s, student, activity, found) { OpenIsLater(s, student, activity, found, id); }
    case WorkerEnds(outcome) => WorkIsLater(s, outcome, id);
    case ReEvaluates(again) => if again in s.sessions { ReQueueIsLater(s, again, id); }
    case _ => ElsewhereIsLater(s, e, id);
  }

  lemma LaterSelf(r: Session)
    ensures Later(r, r)
  {
  }

  lemma ElsewhereIsLater(s: State, e: Event, id: nat)
    requires e.Tick? || e.ScansDeadlines? || e.WorkerTakes? || e.EditsDeadline? || e.TogglesStatus?
          || e.ScansReminders? || e.Reminds? || e.ScansSummaries? || e.Summarises?
    ensures s.nextId == Step(s, e).nextId && s.sessions == Step(s, e).sessions
    ensures id in s.sessions ==> Later(s.sessions[id], s.sessions[id])
  {
    hide DueSessions, DueReminders, DueSummaries;
  }

  lemma MarkIsLater(s: State, j: nat, id: nat)
    requires RowsFit(s)
    ensures forall e | e in [Engages(j), Persists(j), Finalizes(j)] ::
              var t := Step(s, e);
              && s.nextId == t.nextId && (id in t.sessions <==> id in s.sessions)
              && (id in s.sessions ==> Later(s.sessions[id], t.sessions[id]))
  {
    if j in s.sessions { assert RowFits(s, j); }
  }

  lemma WrapUpIsLater(s: State, j: nat, autoEvaluate: bool, id: nat)
    requires j in s.sessions
    ensures var t := WrappedUp(s, j, autoEvaluate);
            && s.nextId == t.nextId && (id in t.sessions <==> id in s.sessions)
            && (id in s.sessions ==> Later(s.sessions[id], t.sessions[id]))
  {
    hide IsLate;
  }

  lemma ForcedIsLater(s: State, j: nat, seen: int, id: nat)
    requires j in s.sessions
    ensures var t := Forced(s, j, seen);
            && s.nextId == t.nextId && (id in t.sessions <==> id in s.sessions)
            && (id in s.sessions ==> Later(s.sessions[id], t.sessions[id]))
  {
  }

  lemma ResetIsLater(s: State, activity: nat, only: Option<string>, id: nat)
    requires activity in s.activities
    ensures var t := WasResetTo(s, activity, only);
            && s.nextId == t.nextId && (id in t.sessions ==> id in s.sessions)
            && (id in t.sessions ==> Later(s.sessions[id], t.sessions[id]))
  {
  }

  lemma OpenIsLater(s: State, student: string, activity: nat, found: Option<nat>, id: nat)
    requires RowsFit(s) && IsLatest(s, student, activity, found) && id < s.nextId
    ensures var t := Opened(s, student, activity, found);
            && s.nextId <= t.nextId && (id in t.sessions <==> id in s.sessions)
            && (id in s.sessions ==> Later(s.sessions[id], t.sessions[id]))
  {
    hide HasFinalized;
    if found.Some? { assert RowFits(s, found.value); }
  }

  lemma WorkIsLater(s: State, outcome: Outcome, id: nat)
    requires Inv(s)
    ensures var t := WorkerEnded(s, outcome);
            && s.nextId == t.nextId && (id in t.sessions <==> id in s.sessions)
            && (id in s.sessions ==> Later(s.sessions[id], t.sessions[id]))
  {
    if s.working.Some? { assert QueueFits(s, s.working.value); }
  }

  lemma ReQueueIsLater(s: State, again: nat, id: nat)
    requires RowsFit(s) && again in s.sessions
    ensures var t := ReQueued(s, again);
            && s.nextId == t.nextId && (id in t.sessions <==> id in s.sessions)
            && (id in s.sessions ==> Later(s.sessions[id], t.sessions[id]))
  {
    assert RowFits(s, again);
  }

  /** From any point of any run on: a session never returns to IN_PROGRESS, and once it has left, its mark is frozen. */
  lemma {:induction false} NeverBackInProgress(now: int, activities: map<nat, Activity>, es: seq<Event>, n: nat, id: nat)
    requires n <= |es|
    requires id in Reach(Start(now, activities), es[..n]).sessions
    requires id in Reach(Start(now, activities), es).sessions
    ensures Later(Reach(Start(now, activities), es[..n]).sessions[id], Reach(Start(now, activities), es).sessions[id])
    ensures id < Reach(Start(now, activities), es).nextId
    decreases |es|
  {
    hide Step, Inv, Start;
    if n == |es| {
      assert es[..n] == es;
      StartedBelow(now, activities, es, id);
    } else {
      var past := es[..|es| - 1];
      assert past[..n] == es[..n];
      StillThere(now, activities, past, n, id);
      Reachable(now, activities, past);
      StepIsLater(Reach(Start(now, activities), past), es[|es| - 1], id);
      NeverBackInProgress(now, activities, past, n, id);
    }
  }

  lemma StartedBelow(now: int, activities: map<nat, Activity>, es: seq<Event>, id: nat)
    requires id in Reach(Start(now, activities), es).sessions
    ensures id < Reach(Start(now, activities), es).nextId
  {
    hide Reach;
    Reachable(now, activities, es);
    assert RowFits(Reach(Start(now, activities), es), id);
  }

  /** Ids are not given out again. */
  lemma {:induction false} StillThere(now: int, activities: map<nat, Activity>, es: seq<Event>, n: nat, id: nat)
    requires n <= |es| && id in Reach(Start(now, activities), es[..n]).sessions
    ensures id < Reach(Start(now, activities), es).nextId
    decreases |es|
  {
    hide Step, Inv, Start;
    if n == |es| {
      assert es[..n] == es;
      StartedBelow(now, activities, es, id);
    } else {
      var past := es[..|es| - 1];
      assert past[..n] == es[..n];
      StillThere(now, activities, past, n, id);
      Reachable(now, activities, past);
      StepIsLater(Reach(Start(now, activities), past), es[|es| - 1], id);
    }
  }
}
