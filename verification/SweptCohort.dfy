/** The summary's split on the tables as the deadline sweep leaves them: the sweep runs before the summary on every tick
    (deadline_reminders.py). */
module SweptCohort {
  import opened Text
  import opened Lifecycle
  import opened Cohort
  import LifecycleGuarantees

  /** The ids of an activity's sessions as the summary query lists them: all of them, newest first. */
  ghost predicate Lists(s: State, activity: nat, ids: seq<nat>) {
    && (forall id :: id in ids <==> id in s.sessions && s.sessions[id].activity == activity)
    && forall i, j | 0 <= i < j < |ids| ::
         ids[i] in s.sessions && ids[j] in s.sessions && s.sessions[ids[i]].startedAt >= s.sessions[ids[j]].startedAt
  }

  function RowOf(r: Session): Row {
    Row(r.student, r.status, r.finalizedAt, r.startedAt)
  }

  function RowsOf(s: State, ids: seq<nat>): (rows: seq<Row>)
    requires forall id | id in ids :: id in s.sessions
    ensures |rows| == |ids| && forall i | 0 <= i < |ids| :: rows[i] == RowOf(s.sessions[ids[i]])
  {
    if ids == [] then [] else [RowOf(s.sessions[ids[0]])] + RowsOf(s, ids[1..])
  }

  /** The session the summary looks at for a student. */
  function Newest(s: State, ids: seq<nat>, student: string): (r: Option<nat>)
    requires forall id | id in ids :: id in s.sessions
    ensures r.Some? ==> r.value in ids && s.sessions[r.value].student == student
    ensures r.None? ==> forall id | id in ids :: s.sessions[id].student != student
  {
    if ids == [] then None
    else if s.sessions[ids[0]].student == student then Some(ids[0])
    else Newest(s, ids[1..], student)
  }

  lemma {:induction false} FirstRowIsNewest(s: State, ids: seq<nat>, student: string)
    requires forall id | id in ids :: id in s.sessions
    ensures FirstRow(RowsOf(s, ids), student) ==
            match Newest(s, ids, student) case None => None case Some(id) => Some(RowOf(s.sessions[id]))
  {
    if ids != [] {
      FirstRowIsNewest(s, ids[1..], student);
      assert RowsOf(s, ids)[1..] == RowsOf(s, ids[1..]);
    }
  }

  lemma {:induction false} NewestIsNewest(s: State, ids: seq<nat>, student: string, id: nat)
    requires forall x | x in ids :: x in s.sessions
    requires forall i, j | 0 <= i < j < |ids| :: s.sessions[ids[i]].startedAt >= s.sessions[ids[j]].startedAt
    requires id in ids && s.sessions[id].student == student
    ensures Newest(s, ids, student).Some?
    ensures s.sessions[Newest(s, ids, student).value].startedAt >= s.sessions[id].startedAt
    decreases |ids|
  {
    if s.sessions[ids[0]].student != student {
      NewestIsNewest(s, ids[1..], student, id);
    } else {
      var j :| 0 <= j < |ids| && ids[j] == id;
    }
  }

  /** A sweep has handled every row of the activity it had to. */
  predicate Swept(s: State, activity: nat) {
    forall id | id in s.sessions && s.sessions[id].activity == activity :: !IsDue(s, s.sessions[id])
  }

  /** A session that does not make its student on time after the sweep: one nobody wrote in that is not finalized in
      time, or a late one that an administrator had evaluated. */
  predicate LeavesOut(s: State, r: Session) {
    if r.status == IN_PROGRESS then !r.engaged && (r.finalizedAt.None? || IsLate(s, r)) else IsLate(s, r)
  }

  /** After the sweep a student of the cohort is listed on time exactly when there is a newest session and it is not one
      of those. */
  lemma SweptOnTimeIff(now: int, activities: map<nat, Activity>, es: seq<Event>, activity: nat, deadline: int,
                       ids: seq<nat>, enrolled: seq<Student>, student: Student)
    requires var s := Reach(Start(now, activities), es);
             && activity in s.activities && s.activities[activity].deadline == Some(deadline) && deadline <= s.now
             && Swept(s, activity) && Lists(s, activity, ids)
    requires student in enrolled
    ensures var s := Reach(Start(now, activities), es);
            var newest := Newest(s, ids, student.id);
            && (student in OnTimeOf(enrolled, RowsOf(s, ids), deadline)
                <==> newest.Some? && !LeavesOut(s, s.sessions[newest.value]))
            && (newest.Some? && LeavesOut(s, s.sessions[newest.value]) && s.sessions[newest.value].status != IN_PROGRESS
                ==> Times(s, Requeued(newest.value)) >= 1)
  {
    hide Reach, OnTimeOf, FirstRow, Newest, RowsOf;
    var s := Reach(Start(now, activities), es);
    Reachable(now, activities, es);
    FirstRowIsNewest(s, ids, student.id);
    OnTimeMembers(enrolled, RowsOf(s, ids), deadline, student);
    OnTimeIff(RowsOf(s, ids), deadline, student);
    var newest := Newest(s, ids, student.id);
    if newest.Some? {
      assert RowFits(s, newest.value) && DispatchFits(s, newest.value);
    }
  }

  lemma {:induction false} OnTimeMembers(enrolled: seq<Student>, rows: seq<Row>, deadline: int, student: Student)
    requires student in enrolled
    ensures student in OnTimeOf(enrolled, rows, deadline) <==> OnTime(rows, deadline, student)
    decreases |enrolled|
  {
    SplitsCohort(enrolled, rows, deadline);
    var a, b := OnTimeOf(enrolled, rows, deadline), RestOf(enrolled, rows, deadline);
    assert student in multiset(enrolled);
    assert student in multiset(a) || student in multiset(b);
  }

  /** A student who finished in time is missing from the on-time list exactly when the newest session is another one,
      opened no earlier, that leaves the student out. */
  lemma FinisherIsMissingIff(now: int, activities: map<nat, Activity>, es: seq<Event>, activity: nat, deadline: int,
                             ids: seq<nat>, enrolled: seq<Student>, student: Student, finished: nat)
    requires var s := Reach(Start(now, activities), es);
             && activity in s.activities && s.activities[activity].deadline == Some(deadline) && deadline <= s.now
             && Swept(s, activity) && Lists(s, activity, ids)
             && finished in s.sessions && Owns(s.sessions[finished], student.id, activity)
             && s.sessions[finished].finalizedAt.Some? && s.sessions[finished].finalizedAt.value <= deadline
    requires student in enrolled
    ensures var s := Reach(Start(now, activities), es);
            var newest := Newest(s, ids, student.id);
            && newest.Some?
            && (student !in OnTimeOf(enrolled, RowsOf(s, ids), deadline) <==> LeavesOut(s, s.sessions[newest.value]))
            && (LeavesOut(s, s.sessions[newest.value]) ==>
                  newest.value != finished && s.sessions[newest.value].startedAt >= s.sessions[finished].startedAt)
  {
    hide Reach, OnTimeOf, Newest, RowsOf, Swept;
    var s := Reach(Start(now, activities), es);
    SweptOnTimeIff(now, activities, es, activity, deadline, ids, enrolled, student);
    NewestIsNewest(s, ids, student.id, finished);
  }

  // ----- such a student -----

  const DUE_AT_TEN := map[7 := Activity(PUBLISHED, Some(10), false, false)]

  /** Two connections opened before the first session was finalized: the student finished at 1 with a deadline at 10, and
      is listed late because nothing was said in the second one. */
  lemma FinisherGoesMissing(student: Student)
    ensures var s := Reach(Start(0, DUE_AT_TEN),
                           [Opens(student.id, 7, None), Tick(1), Opens(student.id, 7, None), Engages(0), Finalizes(0),
                            WrapsUp(0, true), Tick(9)]);
            && Swept(s, 7) && Lists(s, 7, [1, 0])
            && Owns(s.sessions[0], student.id, 7) && s.sessions[0].finalizedAt == Some(1)
            && s.sessions[0].status == PENDING_EVALUATION
            && s.now == 10 && student !in OnTimeOf([student], RowsOf(s, [1, 0]), 10)
  {
    var e1, e2, e3 := Opens(student.id, 7, None), Tick(1), Opens(student.id, 7, None);
    var e4, e5, e6, e7 := Engages(0), Finalizes(0), WrapsUp(0, true), Tick(9);
    var s3 := Step(Step(Step(Start(0, DUE_AT_TEN), e1), e2), e3);
    TwoConnections(student.id, s3);
    var s := Step(Step(Step(Step(s3, e4), e5), e6), e7);
    FirstFinishes(student.id, s3, s);
    Reach7(Start(0, DUE_AT_TEN), e1, e2, e3, e4, e5, e6, e7);
    assert Newest(s, [1, 0], student.id) == Some(1);
    FinisherIsMissingIff(0, DUE_AT_TEN, [e1, e2, e3, e4, e5, e6, e7], 7, 10, [1, 0], [student], student, 0);
  }

  lemma TwoConnections(student: string, s3: State)
    requires s3 == Step(Step(Step(Start(0, DUE_AT_TEN), Opens(student, 7, None)), Tick(1)), Opens(student, 7, None))
    ensures s3.sessions == map[0 := Session(7, student, IN_PROGRESS, 0, None, false, false),
                               1 := Session(7, student, IN_PROGRESS, 1, None, false, false)]
    ensures s3.activities == DUE_AT_TEN && s3.now == 1
  {
    var s2 := Step(Step(Start(0, DUE_AT_TEN), Opens(student, 7, None)), Tick(1));
    assert s2.sessions == map[0 := Session(7, student, IN_PROGRESS, 0, None, false, false)];
    assert s2.activities == DUE_AT_TEN && s2.nextId == 1 && s2.now == 1;
    assert !HasFinalized(s2, student, 7) && IsLatest(s2, student, 7, None);
  }

  lemma FirstFinishes(student: string, s3: State, s: State)
    requires s3.sessions == map[0 := Session(7, student, IN_PROGRESS, 0, None, false, false),
                                1 := Session(7, student, IN_PROGRESS, 1, None, false, false)]
    requires s3.activities == DUE_AT_TEN && s3.now == 1
    requires s == Step(Step(Step(Step(s3, Engages(0)), Finalizes(0)), WrapsUp(0, true)), Tick(9))
    ensures s.activities == DUE_AT_TEN && s.now == 10
    ensures s.sessions == map[0 := Session(7, student, PENDING_EVALUATION, 0, Some(1), true, true),
                              1 := Session(7, student, IN_PROGRESS, 1, None, false, false)]
  {
    var s5 := Step(Step(s3, Engages(0)), Finalizes(0));
    assert s5.sessions[0] == Session(7, student, IN_PROGRESS, 0, Some(1), false, true);
    assert !IsLate(s5, s5.sessions[0].(resumable := true));
  }

  lemma Reach7(s: State, a: Event, b: Event, c: Event, d: Event, e: Event, f: Event, g: Event)
    ensures Reach(s, [a, b, c, d, e, f, g]) == Step(Step(Step(Step(Step(Step(Step(s, a), b), c), d), e), f), g)
  {
    hide Step, Reach;
    LifecycleGuarantees.Reach4(s, a, b, c, d);
    OneMore(s, [a, b, c, d], e);
    assert [a, b, c, d] + [e] == [a, b, c, d, e];
    OneMore(s, [a, b, c, d, e], f);
    assert [a, b, c, d, e] + [f] == [a, b, c, d, e, f];
    OneMore(s, [a, b, c, d, e, f], g);
    assert [a, b, c, d, e, f] + [g] == [a, b, c, d, e, f, g];
  }

  lemma OneMore(s: State, es: seq<Event>, e: Event)
    ensures Reach(s, es + [e]) == Step(Reach(s, es), e)
  {
    hide Step;
    assert (es + [e])[..|es + [e]| - 1] == es;
  }
}
