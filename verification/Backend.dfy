/** The transactions of the session lifecycle on the shared tables (session.py, deadline_reminders.py,
    metrics_evaluator.py, admin.py, activities.py). Each is tied to its step of the lifecycle model, which makes the
    results about interleavings results about this code; beyond that the methods say what the caller is answered, whom
    a reminder goes to, and what one whole sweep leaves behind. */
module Backend {
  import opened Text
  import opened Lifecycle

  datatype Opening = AlreadyFinalized | ActivityExpired | NoActivity | Resumed(id: nat) | Created(id: nat)

  datatype Answer = Accepted | NotFound | Refused

  class Tables {
    var now: int
    var nextId: nat
    var sessions: map<nat, Session>
    var activities: map<nat, Activity>
    var queue: seq<nat>
    var working: Option<nat>
    ghost var due: set<(nat, int)>
    ghost var dueReminder: set<nat>
    ghost var dueSummary: set<nat>
    ghost var log: seq<Entry>

    constructor (now: int, activities: map<nat, Activity>)
      ensures View() == Start(now, activities)
    {
      this.now, nextId, sessions, this.activities := now, 0, map[], activities;
      queue, working, due, dueReminder, dueSummary, log := [], None, {}, {}, {}, [];
    }

    ghost function View(): State
      reads this
    {
      State(now, nextId, sessions, activities, due, dueReminder, dueSummary, queue, working, log)
    }

    predicate Expired(activity: nat)
      reads this
    {
      activity in activities && activities[activity].deadline.Some? && activities[activity].deadline.value < now
    }

    function Deadline(r: Session): Option<int>
      reads this
      ensures Deadline(r) == DeadlineOf(View(), r)
    {
      if r.activity in activities then activities[r.activity].deadline else None
    }

    method SetUpSession(student: string, activity: nat, found: Option<nat>) returns (answer: Opening)
      requires IsLatest(View(), student, activity, found)
      modifies this
      ensures View() == Step(old(View()), Opens(student, activity, found))
      ensures answer.AlreadyFinalized? <==> old(HasFinalized(View(), student, activity))
      ensures answer.ActivityExpired? <==>
                && !old(HasFinalized(View(), student, activity)) && activity in activities
                && activities[activity].deadline.Some? && activities[activity].deadline.value < now
      ensures answer.NoActivity? <==> !old(HasFinalized(View(), student, activity)) && activity !in activities
      ensures answer.Resumed? || answer.Created? ==>
                (answer.Resumed? <==> exists id :: CanResume(old(View()), id, student, activity))
      ensures answer.Resumed? ==>
                && CanResume(old(View()), answer.id, student, activity)
                && (forall j :: CanResume(old(View()), j, student, activity) ==>
                      old(sessions)[j].startedAt <= old(sessions)[answer.id].startedAt)
                && sessions == old(sessions)[answer.id := old(sessions)[answer.id].(status := IN_PROGRESS)]
      ensures answer.Created? ==>
                && answer.id == old(nextId)
                && sessions == old(sessions)[answer.id := Session(activity, student, IN_PROGRESS, now, None, false, false)]
      ensures !answer.Resumed? && !answer.Created? ==> sessions == old(sessions)
    {
      hide IsLatest, CanResume;
      if exists id | id in sessions :: Owns(sessions[id], student, activity) && sessions[id].finalizedAt.Some? {
        return AlreadyFinalized;
      }
      if Expired(activity) { return ActivityExpired; }
      if activity !in activities { return NoActivity; }
      FoundResumes(View(), student, activity, found);
      match found
      case Some(id) =>
        sessions := sessions[id := sessions[id].(status := IN_PROGRESS)];
        return Resumed(id);
      case None =>
        sessions := sessions[nextId := Session(activity, student, IN_PROGRESS, now, None, false, false)];
        nextId := nextId + 1;
        return Created(nextId - 1);
    }

    method StoreUserMessage(id: nat)
      modifies this`sessions
      ensures View() == Step(old(View()), Engages(id))
    {
      if id in sessions { sessions := sessions[id := sessions[id].(engaged := true)]; }
    }

    method PersistPolicyState(id: nat)
      modifies this`sessions
      ensures View() == Step(old(View()), Persists(id))
    {
      if id in sessions { sessions := sessions[id := sessions[id].(resumable := true)]; }
    }

    method FinalizeBySentinel(id: nat)
      modifies this`sessions
      ensures View() == Step(old(View()), Finalizes(id))
    {
      if id in sessions && sessions[id].finalizedAt.None? {
        sessions := sessions[id := sessions[id].(finalizedAt := Some(now))];
      }
    }

    method WrapUpSession(id: nat, autoEvaluate: bool) returns (queued: bool)
      modifies this
      ensures View() == Step(old(View()), WrapsUp(id, autoEvaluate))
      ensures queued <==> && autoEvaluate && id in old(sessions) && old(sessions)[id].status == IN_PROGRESS
                          && old(sessions)[id].finalizedAt.Some? && !IsLate(old(View()), old(sessions)[id])
      ensures queue == if queued then old(queue) + [id] else old(queue)
    {
      if id !in sessions { return false; }
      sessions := sessions[id := sessions[id].(resumable := true)];
      var r := sessions[id];
      var deadline := Deadline(r);
      var isFinalized := r.finalizedAt.Some?;
      var alreadyDispatched := r.status == PENDING_EVALUATION || r.status == EVALUATED || r.status == EVALUATION_FAILED;
      var isLate := isFinalized && deadline.Some? && r.finalizedAt.value > deadline.value;
      if !isFinalized || alreadyDispatched || isLate { return false; }
      sessions := sessions[id := r.(status := PENDING_EVALUATION)];
      log := log + [Dispatched(id)];
      if !autoEvaluate { return false; }
      queue, log := queue + [id], log + [AutoQueued(id)];
      return true;
    }

    method ScanDeadlines() returns (candidates: set<(nat, int)>)
      modifies this`due
      ensures View() == Step(old(View()), ScansDeadlines)
      ensures candidates <= due && candidates == DueSessions(old(View()))
    {
      candidates := set id | id in sessions && sessions[id].status == IN_PROGRESS && Deadline(sessions[id]).Some?
                             && Deadline(sessions[id]).value <= now && sessions[id].startedAt <= Deadline(sessions[id]).value
                             && sessions[id].engaged :: (id, Deadline(sessions[id]).value);
      assert candidates == DueSessions(View());
      due := due + candidates;
    }

    method ForceFinalizeSession(id: nat, deadline: int)
      requires (id, deadline) in due
      modifies this
      ensures View() == Step(old(View()), ForceFinalizes(id, deadline))
    {
      if id !in sessions || sessions[id].status != IN_PROGRESS { return; }
      sessions := sessions[id := sessions[id].(finalizedAt := Some(deadline), status := PENDING_EVALUATION)];
      log := log + [Dispatched(id)];
      queue, log := queue + [id], log + [AutoQueued(id)];
      assert old(log) + [Dispatched(id)] + [AutoQueued(id)] == log;
    }

    /** One whole sweep: scan, then one transaction for each row found. Exactly the due sessions are dispatched, marked
        with their deadline, and none is left. */
    method SweepDeadlines()
      modifies this
      ensures sessions == AfterSweep(old(View()))
      ensures activities == old(activities) && now == old(now)
      ensures forall id | id in sessions :: !IsDue(View(), sessions[id])
    {
      hide DueSessions, Forced, IsDue;
      ghost var s := View();
      var todo := ScanDeadlines();
      NothingSwept(s);
      while todo != {}
        invariant todo <= due && todo <= DueSessions(s)
        invariant activities == s.activities && now == s.now && SweptSoFar(s, todo, sessions)
        decreases |todo|
      {
        hide SweptSoFar;
        var found :| found in todo;
        var (id, deadline) := found;
        SweepsOne(s, View(), todo, id, deadline);
        todo := todo - {found};
        ForceFinalizeSession(id, deadline);
      }
      AllSwept(s, View());
    }

    /** The evaluator's loop body: one session in hand at a time, first come first served. */
    method WorkerTakesNext()
      requires queue != [] && working.None?
      modifies this
      ensures View() == Step(old(View()), WorkerTakes)
    {
      working := Some(queue[0]);
      queue := queue[1..];
    }

    /** All attempts used up, or one of them returned. */
    method WorkerFinishes(failed: bool)
      requires working.Some?
      modifies this
      ensures View() == Step(old(View()), WorkerEnds(if failed then Fails else Evaluates))
    {
      var id := working.value;
      if id in sessions {
        if failed {
          sessions := sessions[id := sessions[id].(status := EVALUATION_FAILED)];
        } else if sessions[id].engaged {
          sessions := sessions[id := sessions[id].(status := EVALUATED)];
        }
      }
      working, log := None, log + [Worked(id)];
    }

    method ReEvaluateSession(id: nat) returns (answer: Answer)
      modifies this
      ensures View() == Step(old(View()), ReEvaluates(id))
      ensures answer.NotFound? <==> id !in old(sessions)
      ensures answer.Refused? <==> id in old(sessions) && old(sessions)[id].finalizedAt.None?
    {
      if id !in sessions { return NotFound; }
      if sessions[id].finalizedAt.None? { return Refused; }
      sessions := sessions[id := sessions[id].(status := PENDING_EVALUATION)];
      queue, log := queue + [id], log + [Requeued(id)];
      return Accepted;
    }

    method UpdateDeadline(activity: nat, deadline: Option<int>) returns (answer: Answer)
      modifies this`activities
      ensures View() == Step(old(View()), EditsDeadline(activity, deadline))
      ensures answer.Accepted? <==> && activity in activities && old(activities)[activity].status == DRAFT
                                    && (deadline.None? || now < deadline.value)
      ensures answer.Accepted? ==> activities[activity].deadline == deadline
      ensures !answer.Accepted? ==> activities == old(activities)
    {
      if deadline.Some? && deadline.value <= now { return Refused; }
      if activity !in activities { return NotFound; }
      if activities[activity].status != DRAFT { return Refused; }
      activities := activities[activity := activities[activity].(deadline := deadline)];
      return Accepted;
    }

    method UpdateStatus(activity: nat, status: ActivityStatus)
      modifies this`activities
      ensures View() == Step(old(View()), TogglesStatus(activity, status))
    {
      if activity in activities { activities := activities[activity := activities[activity].(status := status)]; }
    }

    method ResetActivity(activity: nat, only: Option<string>) returns (answer: Answer)
      modifies this
      ensures View() == Step(old(View()), Resets(activity, only))
      ensures answer.NotFound? <==> activity !in activities
    {
      hide Without;
      if activity !in activities { return NotFound; }
      ReopenActivity(activity);
      DeleteSessions(activity, only);
      log := log + [WasReset(activity)];
      return Accepted;
    }

    method ReopenActivity(activity: nat)
      requires activity in activities
      modifies this`activities
      ensures activities == old(activities)[activity := old(activities)[activity].(
                              deadline := Some(now + RESET_SPAN), reminded := false, summarised := false)]
    {
      activities := activities[activity := activities[activity].(deadline := Some(now + RESET_SPAN), reminded := false,
                                                                 summarised := false)];
    }

    method DeleteSessions(activity: nat, only: Option<string>)
      modifies this`sessions
      ensures sessions == Without(old(sessions), activity, only)
      ensures forall id :: id in sessions <==>
                && id in old(sessions)
                && !(old(sessions)[id].activity == activity && (only.None? || old(sessions)[id].student == only.value))
      ensures forall id | id in sessions :: sessions[id] == old(sessions)[id]
    {
      var gone := set id | id in sessions && sessions[id].activity == activity
                           && (only.None? || sessions[id].student == only.value);
      MinusIsWithout(sessions, gone, activity, only);
      sessions := sessions - gone;
    }

    method ScanReminders() returns (candidates: set<nat>)
      modifies this`dueReminder
      ensures View() == Step(old(View()), ScansReminders)
      ensures candidates <= dueReminder && candidates == DueReminders(old(View()))
    {
      candidates := set a | a in activities && activities[a].status == PUBLISHED && activities[a].deadline.Some?
                            && !activities[a].reminded && activities[a].deadline.value > now
                            && activities[a].deadline.value <= now + REMINDER_WINDOW;
      assert candidates == DueReminders(View());
      dueReminder := dueReminder + candidates;
    }

    /** Marks before mailing; the mail goes to the enrolled students without a finalized session of the activity. */
    method SendReminders(activity: nat, enrolled: seq<string>) returns (mailed: bool, recipients: seq<string>)
      requires activity in dueReminder
      modifies this`activities, this`log
      ensures View() == Step(old(View()), Reminds(activity))
      ensures mailed <==> activity in old(activities) && !old(activities)[activity].reminded
      ensures recipients == if mailed then Unfinished(old(View()), enrolled, activity) else []
    {
      if activity !in activities || activities[activity].reminded { return false, []; }
      recipients := Recipients(activity, enrolled);
      activities := activities[activity := activities[activity].(reminded := true)];
      log := log + [ReminderBatch(activity)];
      return true, recipients;
    }

    method Recipients(activity: nat, enrolled: seq<string>) returns (recipients: seq<string>)
      ensures recipients == Unfinished(View(), enrolled, activity)
    {
      hide Unfinished;
      recipients := [];
      NobodyYet(View(), activity);
      for k := 0 to |enrolled|
        invariant recipients == Unfinished(View(), enrolled[..k], activity)
      {
        UnfinishedSnoc(View(), enrolled[..k], enrolled[k], activity);
        assert enrolled[..k + 1] == enrolled[..k] + [enrolled[k]];
        if !exists id | id in sessions :: Owns(sessions[id], enrolled[k], activity) && sessions[id].finalizedAt.Some? {
          recipients := recipients + [enrolled[k]];
        }
      }
      assert enrolled[..|enrolled|] == enrolled;
    }

    method ScanSummaries() returns (candidates: set<nat>)
      modifies this`dueSummary
      ensures View() == Step(old(View()), ScansSummaries)
      ensures candidates <= dueSummary && candidates == DueSummaries(old(View()))
    {
      candidates := set a | a in activities && activities[a].deadline.Some? && !activities[a].summarised
                            && activities[a].deadline.value <= now;
      assert candidates == DueSummaries(View());
      dueSummary := dueSummary + candidates;
    }

    method SendSummary(activity: nat) returns (mailed: bool)
      requires activity in dueSummary
      modifies this`activities, this`log
      ensures View() == Step(old(View()), Summarises(activity))
      ensures mailed <==> activity in old(activities) && !old(activities)[activity].summarised
                          && old(activities)[activity].deadline.Some?
    {
      if activity !in activities || activities[activity].summarised || activities[activity].deadline.None? { return false; }
      activities := activities[activity := activities[activity].(summarised := true)];
      log := log + [Summary(activity)];
      return true;
    }
  }

  /** What a sweep makes of a row. */
  function SweptRow(s: State, id: nat): Session
    requires id in s.sessions
  {
    var r := s.sessions[id];
    if IsDue(s, r) then r.(finalizedAt := DeadlineOf(s, r), status := PENDING_EVALUATION) else r
  }

  function AfterSweep(s: State): map<nat, Session> {
    map id | id in s.sessions :: SweptRow(s, id)
  }

  /** The rows after the sweep has handled all it found but `todo`. */
  predicate SweptSoFar(s: State, todo: set<(nat, int)>, rows: map<nat, Session>) {
    && rows.Keys == s.sessions.Keys
    && forall id | id in s.sessions ::
         rows[id] == if IsDue(s, s.sessions[id]) && (id, DeadlineOf(s, s.sessions[id]).value) !in todo
                     then SweptRow(s, id) else s.sessions[id]
  }

  lemma NothingSwept(s: State)
    ensures SweptSoFar(s, DueSessions(s), s.sessions)
  {
    hide IsDue;
  }

  lemma OneDeadline(s: State, id: nat, deadline: int)
    requires (id, deadline) in DueSessions(s)
    ensures id in s.sessions && IsDue(s, s.sessions[id]) && DeadlineOf(s, s.sessions[id]) == Some(deadline)
    ensures s.sessions[id].status == IN_PROGRESS
  {
  }

  lemma SweepsOne(s: State, t: State, todo: set<(nat, int)>, id: nat, deadline: int)
    requires todo <= DueSessions(s) && (id, deadline) in todo && todo <= t.due
    requires SweptSoFar(s, todo, t.sessions)
    ensures var u := Step(t, ForceFinalizes(id, deadline));
            && SweptSoFar(s, todo - {(id, deadline)}, u.sessions)
            && u == t.(sessions := u.sessions, queue := u.queue, log := u.log)
  {
    hide IsDue, DueSessions;
    OneDeadline(s, id, deadline);
    var u := Step(t, ForceFinalizes(id, deadline));
    assert u.sessions == t.sessions[id := SweptRow(s, id)];
  }

  lemma AllSwept(s: State, t: State)
    requires SweptSoFar(s, {}, t.sessions) && t.activities == s.activities && t.now == s.now
    ensures t.sessions == AfterSweep(s)
    ensures forall id | id in t.sessions :: !IsDue(t, t.sessions[id])
  {
    forall id | id in t.sessions ensures !IsDue(t, t.sessions[id]) {
      assert t.sessions[id] == SweptRow(s, id);
    }
  }

  /** The enrolled students who have not finished. */
  function Unfinished(s: State, enrolled: seq<string>, activity: nat): (r: seq<string>)
    ensures forall student :: student in r <==> student in enrolled && !HasFinalized(s, student, activity)
  {
    if enrolled == [] then []
    else
      var last := enrolled[|enrolled| - 1];
      Unfinished(s, enrolled[..|enrolled| - 1], activity) + if HasFinalized(s, last, activity) then [] else [last]
  }

  lemma NobodyYet(s: State, activity: nat)
    ensures Unfinished(s, [], activity) == []
  {
  }

  lemma UnfinishedSnoc(s: State, enrolled: seq<string>, student: string, activity: nat)
    ensures Unfinished(s, enrolled + [student], activity) ==
            if HasFinalized(s, student, activity) then Unfinished(s, enrolled, activity)
            else Unfinished(s, enrolled, activity) + [student]
  {
    hide HasFinalized;
    assert (enrolled + [student])[..|enrolled|] == enrolled;
  }

  lemma MinusIsWithout(sessions: map<nat, Session>, gone: set<nat>, activity: nat, only: Option<string>)
    requires gone == set id | id in sessions && sessions[id].activity == activity
                              && (only.None? || sessions[id].student == only.value)
    ensures sessions - gone == Without(sessions, activity, only)
  {
  }

  lemma FoundResumes(s: State, student: string, activity: nat, found: Option<nat>)
    requires IsLatest(s, student, activity, found)
    ensures found.Some? ==>
              && CanResume(s, found.value, student, activity) && found.value in s.sessions
              && forall j :: CanResume(s, j, student, activity) ==>
                   j in s.sessions && s.sessions[j].startedAt <= s.sessions[found.value].startedAt
    ensures found.None? ==> forall j :: !CanResume(s, j, student, activity)
  {
  }
}
