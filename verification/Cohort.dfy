/** The teacher's deadline summary: the enrolled cohort split into on time and the rest (deadline_reminders.py). */
module Cohort {
  import opened Text
  import opened Lifecycle

  datatype Student = Student(id: string, displayName: string)

  /** A session of the activity, as the summary query returns it. */
  datatype Row = Row(student: string, status: Status, finalizedAt: Option<int>, startedAt: int)

  /** Newest first. */
  predicate ByStart(rows: seq<Row>) {
    forall i, j | 0 <= i < j < |rows| :: rows[i].startedAt >= rows[j].startedAt
  }

  function Label(s: Student): string {
    if s.displayName != "" then s.displayName else s.id
  }

  predicate IsMostRecent(rows: seq<Row>, student: string, r: Row) {
    && r in rows && r.student == student
    && forall q | q in rows && q.student == student :: q.startedAt <= r.startedAt
  }

  /** The first of the student's rows. */
  function FirstRow(rows: seq<Row>, student: string): (r: Option<Row>)
    ensures r.None? <==> forall q | q in rows :: q.student != student
    ensures r.Some? ==> r.value in rows && r.value.student == student
  {
    if rows == [] then None else if rows[0].student == student then Some(rows[0]) else FirstRow(rows[1..], student)
  }

  lemma {:induction false} FirstIsMostRecent(rows: seq<Row>, student: string)
    requires ByStart(rows) && FirstRow(rows, student).Some?
    ensures IsMostRecent(rows, student, FirstRow(rows, student).value)
  {
    if rows[0].student != student {
      FirstIsMostRecent(rows[1..], student);
    }
  }

  /** The student's most recent session was finalized by the deadline. */
  predicate OnTime(rows: seq<Row>, deadline: int, s: Student) {
    var r := FirstRow(rows, s.id);
    r.Some? && r.value.finalizedAt.Some? && r.value.finalizedAt.value <= deadline
  }

  function StatusLabel(status: Status): string {
    if status == EVALUATED then "Evaluated" else if status == EVALUATION_FAILED then "Evaluation failed" else "Evaluating"
  }

  function OnTimeOf(enrolled: seq<Student>, rows: seq<Row>, deadline: int): seq<Student> {
    if enrolled == [] then []
    else
      var s := enrolled[|enrolled| - 1];
      OnTimeOf(enrolled[..|enrolled| - 1], rows, deadline) + if OnTime(rows, deadline, s) then [s] else []
  }

  function RestOf(enrolled: seq<Student>, rows: seq<Row>, deadline: int): seq<Student> {
    if enrolled == [] then []
    else
      var s := enrolled[|enrolled| - 1];
      RestOf(enrolled[..|enrolled| - 1], rows, deadline) + if OnTime(rows, deadline, s) then [] else [s]
  }

  function Labels(students: seq<Student>): (r: seq<string>)
    ensures |r| == |students|
  {
    if students == [] then [] else Labels(students[..|students| - 1]) + [Label(students[|students| - 1])]
  }

  function Statuses(students: seq<Student>, rows: seq<Row>): (r: seq<string>)
    ensures |r| == |students|
  {
    if students == [] then []
    else
      var r := FirstRow(rows, students[|students| - 1].id);
      Statuses(students[..|students| - 1], rows) + [if r.Some? then StatusLabel(r.value.status) else ""]
  }

  predicate AllEvaluated(students: seq<Student>, rows: seq<Row>) {
    forall s | s in students :: FirstRow(rows, s.id).Some? && FirstRow(rows, s.id).value.status == EVALUATED
  }

  /** Each enrolled student is in exactly one part, as often as enrolled, and for the reason the part stands for. */
  lemma {:induction false} SplitsCohort(enrolled: seq<Student>, rows: seq<Row>, deadline: int)
    ensures multiset(OnTimeOf(enrolled, rows, deadline)) + multiset(RestOf(enrolled, rows, deadline)) == multiset(enrolled)
    ensures forall s | s in OnTimeOf(enrolled, rows, deadline) :: OnTime(rows, deadline, s)
    ensures forall s | s in RestOf(enrolled, rows, deadline) :: !OnTime(rows, deadline, s)
  {
    hide OnTime;
    if enrolled != [] {
      var last := enrolled[|enrolled| - 1];
      SplitsCohort(enrolled[..|enrolled| - 1], rows, deadline);
      assert enrolled == enrolled[..|enrolled| - 1] + [last];
    }
  }

  /** Both lists keep the order of enrolment, and so do the labels and status labels shown for them. */
  lemma {:induction false} SplitsInOrder(a: seq<Student>, b: seq<Student>, rows: seq<Row>, deadline: int)
    ensures OnTimeOf(a + b, rows, deadline) == OnTimeOf(a, rows, deadline) + OnTimeOf(b, rows, deadline)
    ensures RestOf(a + b, rows, deadline) == RestOf(a, rows, deadline) + RestOf(b, rows, deadline)
    ensures Labels(a + b) == Labels(a) + Labels(b)
    ensures Statuses(a + b, rows) == Statuses(a, rows) + Statuses(b, rows)
    decreases |b|
  {
    hide OnTime, OnTimeOf, RestOf, Labels, Statuses, Label;
    if b == [] {
      NobodyYet(rows, deadline);
      assert a + b == a;
    } else {
      var front, s := b[..|b| - 1], b[|b| - 1];
      SplitsInOrder(a, front, rows, deadline);
      assert a + b == (a + front) + [s] && b == front + [s];
      SplitSnoc(a + front, s, rows, deadline);
      SplitSnoc(front, s, rows, deadline);
      ShownSnoc(a + front, s, rows);
      ShownSnoc(front, s, rows);
    }
  }

  lemma ShownSnoc(students: seq<Student>, s: Student, rows: seq<Row>)
    ensures Labels(students + [s]) == Labels(students) + [Label(s)]
    ensures Statuses(students + [s], rows) ==
            Statuses(students, rows) + [if FirstRow(rows, s.id).Some? then StatusLabel(FirstRow(rows, s.id).value.status) else ""]
  {
    hide Label, StatusLabel, FirstRow;
    assert (students + [s])[..|students|] == students;
  }

  /** What the summary shows for one student. */
  lemma ShownFor(s: Student, rows: seq<Row>, deadline: int, r: Row)
    requires FirstRow(rows, s.id) == Some(r)
    ensures Labels([s]) == [if s.displayName == "" then s.id else s.displayName]
    ensures Statuses([s], rows) == [match r.status
                                    case EVALUATED => "Evaluated" case EVALUATION_FAILED => "Evaluation failed"
                                    case _ => "Evaluating"]
    ensures OnTimeOf([s], rows, deadline) ==
            if r.finalizedAt.Some? && r.finalizedAt.value <= deadline then [s] else []
  {
    assert [s][..0] == [];
  }

  method LatestByStudent(rows: seq<Row>) returns (latest: map<string, Row>)
    ensures forall student :: (student in latest) == FirstRow(rows, student).Some?
    ensures forall student | student in latest :: Some(latest[student]) == FirstRow(rows, student)
  {
    latest := map[];
    for k := 0 to |rows|
      invariant forall student :: (student in latest) == FirstRow(rows[..k], student).Some?
      invariant forall student | student in latest :: Some(latest[student]) == FirstRow(rows[..k], student)
    {
      forall student ensures FirstRow(rows[..k + 1], student) ==
        if FirstRow(rows[..k], student).Some? then FirstRow(rows[..k], student)
        else if rows[k].student == student then Some(rows[k]) else None
      {
        assert rows[..k + 1] == rows[..k] + [rows[k]];
        FirstRowSnoc(rows[..k], rows[k], student);
      }
      if rows[k].student !in latest {
        latest := latest[rows[k].student := rows[k]];
      }
    }
    assert rows[..|rows|] == rows;
  }

  lemma {:induction false} FirstRowSnoc(rows: seq<Row>, r: Row, student: string)
    ensures FirstRow(rows + [r], student) ==
            if FirstRow(rows, student).Some? then FirstRow(rows, student)
            else if r.student == student then Some(r) else None
  {
    if rows != [] {
      FirstRowSnoc(rows[1..], r, student);
      assert (rows + [r])[1..] == rows[1..] + [r];
    }
  }

  /** The summary's two lists, and whether everything on time has been evaluated. */
  method SplitCohort(enrolled: seq<Student>, rows: seq<Row>, deadline: int)
    returns (onTime: seq<string>, statuses: seq<string>, lateOrMissing: seq<string>, metricsReady: bool)
    ensures onTime == Labels(OnTimeOf(enrolled, rows, deadline))
    ensures statuses == Statuses(OnTimeOf(enrolled, rows, deadline), rows)
    ensures lateOrMissing == Labels(RestOf(enrolled, rows, deadline))
    ensures |onTime| + |lateOrMissing| == |enrolled|
    ensures metricsReady <==> onTime != [] && AllEvaluated(OnTimeOf(enrolled, rows, deadline), rows)
  {
    hide Label, StatusLabel, OnTime, FirstRow, AllEvaluated, Labels, Statuses, OnTimeOf, RestOf;
    var latest := LatestByStudent(rows);
    NobodyYet(rows, deadline);
    onTime, statuses, lateOrMissing := [], [], [];
    var allEvaluated := true;
    for k := 0 to |enrolled|
      invariant onTime == Labels(OnTimeOf(enrolled[..k], rows, deadline))
      invariant statuses == Statuses(OnTimeOf(enrolled[..k], rows, deadline), rows)
      invariant lateOrMissing == Labels(RestOf(enrolled[..k], rows, deadline))
      invariant |onTime| + |lateOrMissing| == k
      invariant allEvaluated <==> AllEvaluated(OnTimeOf(enrolled[..k], rows, deadline), rows)
    {
      var s := enrolled[k];
      SplitSnoc(enrolled[..k], s, rows, deadline);
      assert enrolled[..k + 1] == enrolled[..k] + [s];
      OnTimeIff(rows, deadline, s);
      if s.id in latest && latest[s.id].finalizedAt.Some? && latest[s.id].finalizedAt.value <= deadline {
        ListsSnoc(OnTimeOf(enrolled[..k], rows, deadline), s, rows);
        if latest[s.id].status != EVALUATED { allEvaluated := false; }
        onTime, statuses := onTime + [Label(s)], statuses + [StatusLabel(latest[s.id].status)];
      } else {
        ListsSnoc(RestOf(enrolled[..k], rows, deadline), s, rows);
        lateOrMissing := lateOrMissing + [Label(s)];
      }
    }
    assert enrolled[..|enrolled|] == enrolled;
    metricsReady := onTime != [] && allEvaluated;
  }

  lemma OnTimeIff(rows: seq<Row>, deadline: int, s: Student)
    ensures OnTime(rows, deadline, s) <==>
            FirstRow(rows, s.id).Some? && FirstRow(rows, s.id).value.finalizedAt.Some?
            && FirstRow(rows, s.id).value.finalizedAt.value <= deadline
  {
  }

  lemma SplitSnoc(enrolled: seq<Student>, s: Student, rows: seq<Row>, deadline: int)
    ensures OnTimeOf(enrolled + [s], rows, deadline) ==
            if OnTime(rows, deadline, s) then OnTimeOf(enrolled, rows, deadline) + [s] else OnTimeOf(enrolled, rows, deadline)
    ensures RestOf(enrolled + [s], rows, deadline) ==
            if OnTime(rows, deadline, s) then RestOf(enrolled, rows, deadline) else RestOf(enrolled, rows, deadline) + [s]
  {
    hide OnTime;
    assert (enrolled + [s])[..|enrolled|] == enrolled;
  }

  lemma ListsSnoc(students: seq<Student>, s: Student, rows: seq<Row>)
    ensures Labels(students + [s]) == Labels(students) + [Label(s)]
    ensures FirstRow(rows, s.id).Some? ==>
              && Statuses(students + [s], rows) == Statuses(students, rows) + [StatusLabel(FirstRow(rows, s.id).value.status)]
              && (AllEvaluated(students + [s], rows)
                  <==> AllEvaluated(students, rows) && FirstRow(rows, s.id).value.status == EVALUATED)
  {
    hide Label, StatusLabel, FirstRow;
    assert (students + [s])[..|students|] == students;
    assert s in students + [s];
  }

  lemma NobodyYet(rows: seq<Row>, deadline: int)
    ensures OnTimeOf([], rows, deadline) == [] && RestOf([], rows, deadline) == []
    ensures Labels([]) == [] && Statuses([], rows) == [] && AllEvaluated([], rows)
  {
  }
}
