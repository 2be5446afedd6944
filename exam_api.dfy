/** The exam endpoints: teachers list their exams, students list the exams of the
    teachers they follow together with their own submission status, students submit,
    and teachers view and grade submissions. The tables `exams`,
    `student_teacher_follows` and `exam_submissions` are fields of one object; a
    submission moves from "pending" (no row) to "submitted" to "graded". */
module ExamApi {
  import opened Wrappers
  import opened Accounts

  datatype Exam = Exam(id: int, teacherId: int, title: string)

  /** A row of `student_teacher_follows`; both ids are profile ids. */
  datatype Follow = Follow(studentId: int, teacherId: int)

  /** A row of `exam_submissions`. `submittedAt` is the time `datetime.now()` gave. */
  datatype Submission = Submission(
    id: int,
    examId: int,
    studentId: int,
    submittedAt: int,
    filePath: Option<string>,
    status: string,
    marks: Option<int>,
    feedback: Option<string>)

  /** The `users` columns shown next to a submission. */
  datatype Person = Person(fullName: string, email: string)

  // ---------------------------------------------------------------------------
  // Table invariants

  /** At most one submission per (exam, student). */
  predicate OnePerPair(subs: seq<Submission>) {
    forall i, j :: 0 <= i < j < |subs| ==>
      subs[i].examId != subs[j].examId || subs[i].studentId != subs[j].studentId
  }

  /** Submission ids are handed out in increasing order below `next`. */
  predicate SubIdsBelow(subs: seq<Submission>, next: int) {
    (forall i, j :: 0 <= i < j < |subs| ==> subs[i].id < subs[j].id)
    && (forall i :: 0 <= i < |subs| ==> 1 <= subs[i].id < next)
  }

  /** Every stored submission is either submitted or graded. */
  predicate StatusesKnown(subs: seq<Submission>) {
    forall i :: 0 <= i < |subs| ==> subs[i].status == "submitted" || subs[i].status == "graded"
  }

  predicate ExamIdsUnique(exams: seq<Exam>) {
    forall i, j :: 0 <= i < j < |exams| ==> exams[i].id != exams[j].id
  }

  // ---------------------------------------------------------------------------
  // Listing exams

  /** `db.query(Exam).filter(Exam.teacher_id.in_(teachers))`, in table order. */
  function ExamsBy(exams: seq<Exam>, teachers: set<int>): (r: seq<Exam>)
    ensures |r| <= |exams|
    ensures forall e :: e in r <==> e in exams && e.teacherId in teachers
    decreases |exams|
  {
    if exams == [] then []
    else
      assert exams == [exams[0]] + exams[1..];
      (if exams[0].teacherId in teachers then [exams[0]] else []) + ExamsBy(exams[1..], teachers)
  }

  /** `list_exams_teacher`. */
  function TeacherExams(exams: seq<Exam>, user: User): (r: Outcome<seq<Exam>>)
    ensures user.role != "teacher" <==> r == Fail(403, "Not authorized")
    ensures user.role == "teacher" && user.teacherProfileId.None? <==> r == Fail(400, "Teacher profile not found")
    ensures r.Ok? ==> user.teacherProfileId.Some?
                      && forall e :: e in r.value <==> e in exams && e.teacherId == user.teacherProfileId.value
  {
    if user.role != "teacher" then Fail(403, "Not authorized")
    else if user.teacherProfileId.None? then Fail(400, "Teacher profile not found")
    else Ok(ExamsBy(exams, {user.teacherProfileId.value}))
  }

  /** The teachers a student follows. */
  function Followed(follows: seq<Follow>, student: int): (r: set<int>)
    ensures forall t :: t in r <==> exists f :: f in follows && f.studentId == student && f.teacherId == t
  {
    set f | f in follows && f.studentId == student :: f.teacherId
  }

  function ExamIds(exams: seq<Exam>): set<int> {
    set e | e in exams :: e.id
  }

  /** `{s.exam_id: s for s in my_submissions}` over the student's submissions to the
      listed exams: a later row overrides an earlier one. */
  function SubsMap(subs: seq<Submission>, student: int, examIds: set<int>): (m: map<int, Submission>)
    ensures forall id :: id in m ==>
              id in examIds && m[id].examId == id && m[id].studentId == student && m[id] in subs
    decreases |subs|
  {
    if subs == [] then map[]
    else
      var last := subs[|subs| - 1];
      var m := SubsMap(subs[..|subs| - 1], student, examIds);
      if last.studentId == student && last.examId in examIds then m[last.examId := last] else m
  }

  /** One line of the student's exam list. */
  datatype ExamEntry = ExamEntry(exam: Exam, status: string, marks: Option<int>)

  function EntryFor(m: map<int, Submission>, e: Exam): ExamEntry {
    if e.id in m then ExamEntry(e, m[e.id].status, m[e.id].marks) else ExamEntry(e, "pending", None)
  }

  function Entries(m: map<int, Submission>, exams: seq<Exam>): (r: seq<ExamEntry>)
    ensures |r| == |exams| && forall i :: 0 <= i < |exams| ==> r[i] == EntryFor(m, exams[i])
  {
    seq(|exams|, i requires 0 <= i < |exams| => EntryFor(m, exams[i]))
  }

  /** `list_exams_student`. */
  function StudentExams(exams: seq<Exam>, follows: seq<Follow>, subs: seq<Submission>, user: User)
    : (r: Outcome<seq<ExamEntry>>)
    ensures user.studentProfileId.None? <==> r == Fail(400, "Student profile not found")
  {
    if user.studentProfileId.None? then Fail(400, "Student profile not found")
    else
      var student := user.studentProfileId.value;
      var listed := ExamsBy(exams, Followed(follows, student));
      Ok(Entries(SubsMap(subs, student, ExamIds(listed)), listed))
  }

  /** A student sees exactly the exams of the teachers they follow. */
  lemma StudentSeesFollowed(exams: seq<Exam>, follows: seq<Follow>, subs: seq<Submission>, user: User)
    requires user.studentProfileId.Some?
    ensures var r := StudentExams(exams, follows, subs, user).value;
            var student := user.studentProfileId.value;
            (forall k :: 0 <= k < |r| ==>
               r[k].exam in exams && Follow(student, r[k].exam.teacherId) in follows)
            && (forall e :: e in exams && Follow(student, e.teacherId) in follows ==>
                  exists k :: 0 <= k < |r| && r[k].exam == e)
  {
    var student := user.studentProfileId.value;
    var listed := ExamsBy(exams, Followed(follows, student));
    var r := StudentExams(exams, follows, subs, user).value;
    forall k | 0 <= k < |r|
      ensures r[k].exam in exams && Follow(student, r[k].exam.teacherId) in follows
    {
      assert r[k].exam == listed[k];
      assert listed[k] in listed;
      var f :| f in follows && f.studentId == student && f.teacherId == listed[k].teacherId;
      assert f == Follow(student, listed[k].teacherId);
    }
    forall e | e in exams && Follow(student, e.teacherId) in follows
      ensures exists k :: 0 <= k < |r| && r[k].exam == e
    {
      assert e.teacherId in Followed(follows, student);
      assert e in listed;
      var k :| 0 <= k < |listed| && listed[k] == e;
      assert r[k].exam == e;
    }
  }

  /** With at most one submission per (exam, student), the map holds exactly that submission. */
  lemma {:induction false} SubsMapFinds(subs: seq<Submission>, student: int, examIds: set<int>, i: nat)
    requires OnePerPair(subs) && i < |subs|
    requires subs[i].studentId == student && subs[i].examId in examIds
    ensures subs[i].examId in SubsMap(subs, student, examIds)
    ensures SubsMap(subs, student, examIds)[subs[i].examId] == subs[i]
    decreases |subs|
  {
    var n := |subs| - 1;
    if i < n {
      var init := subs[..n];
      assert OnePerPair(init);
      assert init[i] == subs[i];
      SubsMapFinds(init, student, examIds, i);
      assert subs[i].examId != subs[n].examId || subs[i].studentId != subs[n].studentId;
    }
  }

  /** The status a student sees: "pending" without marks when they have not submitted,
      otherwise their submission's status and marks. */
  lemma StudentStatus(exams: seq<Exam>, follows: seq<Follow>, subs: seq<Submission>, user: User, k: nat)
    requires OnePerPair(subs) && StatusesKnown(subs)
    requires user.studentProfileId.Some?
    requires k < |StudentExams(exams, follows, subs, user).value|
    ensures var entry := StudentExams(exams, follows, subs, user).value[k];
            var student := user.studentProfileId.value;
            (entry.status == "pending" <==>
               forall i :: 0 <= i < |subs| ==> subs[i].examId != entry.exam.id || subs[i].studentId != student)
            && (forall i :: 0 <= i < |subs| && subs[i].examId == entry.exam.id && subs[i].studentId == student ==>
                  entry.status == subs[i].status && entry.marks == subs[i].marks)
            && (entry.status == "pending" ==> entry.marks.None?)
  {
    var student := user.studentProfileId.value;
    var listed := ExamsBy(exams, Followed(follows, student));
    var ids := ExamIds(listed);
    var m := SubsMap(subs, student, ids);
    var entry := StudentExams(exams, follows, subs, user).value[k];
    assert entry == EntryFor(m, listed[k]);
    assert listed[k] in listed;
    assert listed[k].id in ids;
    forall i | 0 <= i < |subs| && subs[i].examId == entry.exam.id && subs[i].studentId == student
      ensures entry.status == subs[i].status && entry.marks == subs[i].marks
    {
      SubsMapFinds(subs, student, ids, i);
    }
    if entry.exam.id in m {
      var s := m[entry.exam.id];
      var i :| 0 <= i < |subs| && subs[i] == s;
      assert subs[i].status != "pending";
    }
  }

  // ---------------------------------------------------------------------------
  // Submitting

  /** Index of `ExamSubmission.filter(exam_id == e, student_id == s).first()`. */
  function FindSub(subs: seq<Submission>, examId: int, student: int): (r: Option<nat>)
    ensures r.Some? ==> r.value < |subs| && subs[r.value].examId == examId && subs[r.value].studentId == student
    ensures r.None? ==> forall i :: 0 <= i < |subs| ==> subs[i].examId != examId || subs[i].studentId != student
    decreases |subs|
  {
    if subs == [] then None
    else if subs[0].examId == examId && subs[0].studentId == student then Some(0)
    else match FindSub(subs[1..], examId, student)
      case None => None
      case Some(k) => Some(k + 1)
  }

  /** A resubmission: only the time changes, and the file path when a file is uploaded. */
  function Resubmitted(s: Submission, now: int, upload: Option<string>): Submission {
    s.(submittedAt := now, filePath := if upload.Some? then upload else s.filePath)
  }

  /** The upsert of `submit_exam`: the submissions and the next id afterwards.
      `upload` is the path the uploaded file was written to, if a file was sent. */
  function Submit(subs: seq<Submission>, next: int, examId: int, student: int, now: int, upload: Option<string>)
    : (r: (seq<Submission>, int))
    ensures FindSub(subs, examId, student).Some? ==> |r.0| == |subs| && r.1 == next
    ensures FindSub(subs, examId, student).None? ==> |r.0| == |subs| + 1 && r.1 == next + 1
  {
    match FindSub(subs, examId, student)
      case Some(i) => (subs[i := Resubmitted(subs[i], now, upload)], next)
      case None => (subs + [Submission(next, examId, student, now, upload, "submitted", None, None)], next + 1)
  }

  /** Submitting keeps the tables' invariants. */
  lemma SubmitKeepsInvariants(subs: seq<Submission>, next: int, examId: int, student: int, now: int, upload: Option<string>)
    requires OnePerPair(subs) && next >= 1 && SubIdsBelow(subs, next) && StatusesKnown(subs)
    ensures var r := Submit(subs, next, examId, student, now, upload);
            OnePerPair(r.0) && SubIdsBelow(r.0, r.1) && StatusesKnown(r.0)
  {
  }

  /** After a submission the pair has exactly one row, dated now; a first submission is
      "submitted", a resubmission keeps status, marks and feedback; no other row changes. */
  lemma SubmitEffect(subs: seq<Submission>, next: int, examId: int, student: int, now: int, upload: Option<string>)
    requires OnePerPair(subs)
    ensures var r := Submit(subs, next, examId, student, now, upload).0;
            var j := FindSub(r, examId, student);
            j.Some? && r[j.value].submittedAt == now
            && (forall i :: 0 <= i < |r| && i != j.value ==>
                  r[i].examId != examId || r[i].studentId != student)
            && (forall i :: 0 <= i < |subs| && i != j.value ==> r[i] == subs[i])
            && (FindSub(subs, examId, student).None? ==>
                  r[j.value].status == "submitted" && r[j.value].marks.None? && j.value == |subs|)
            && (FindSub(subs, examId, student).Some? ==>
                  j == FindSub(subs, examId, student)
                  && r[j.value].status == subs[j.value].status
                  && r[j.value].marks == subs[j.value].marks
                  && r[j.value].feedback == subs[j.value].feedback)
  {
    var r := Submit(subs, next, examId, student, now, upload).0;
    match FindSub(subs, examId, student)
      case Some(i) =>
        FindSubAt(r, i, examId, student);
      case None =>
        FindSubAt(r, |subs|, examId, student);
  }

  /** The only row of a pair is the one found. */
  lemma {:induction false} FindSubAt(subs: seq<Submission>, i: nat, examId: int, student: int)
    requires i < |subs| && subs[i].examId == examId && subs[i].studentId == student
    requires forall k :: 0 <= k < |subs| && k != i ==> subs[k].examId != examId || subs[k].studentId != student
    ensures FindSub(subs, examId, student) == Some(i)
    decreases |subs|
  {
    if i > 0 {
      FindSubAt(subs[1..], i - 1, examId, student);
    }
  }

  /** A second submission adds no row: there is never more than one per (exam, student). */
  lemma SubmitTwice(subs: seq<Submission>, next: int, examId: int, student: int,
                    now1: int, upload1: Option<string>, now2: int, upload2: Option<string>)
    requires OnePerPair(subs)
    ensures var once := Submit(subs, next, examId, student, now1, upload1);
            var twice := Submit(once.0, once.1, examId, student, now2, upload2);
            |twice.0| == |once.0| && twice.1 == once.1
  {
    SubmitEffect(subs, next, examId, student, now1, upload1);
  }

  // ---------------------------------------------------------------------------
  // Grading

  /** Index of `ExamSubmission.filter(id == subId).first()`. */
  function FindSubById(subs: seq<Submission>, subId: int): (r: Option<nat>)
    ensures r.Some? ==> r.value < |subs| && subs[r.value].id == subId
    ensures r.None? ==> forall i :: 0 <= i < |subs| ==> subs[i].id != subId
    decreases |subs|
  {
    if subs == [] then None
    else if subs[0].id == subId then Some(0)
    else match FindSubById(subs[1..], subId)
      case None => None
      case Some(k) => Some(k + 1)
  }

  function GradeAt(subs: seq<Submission>, i: nat, marks: int, feedback: string): (r: seq<Submission>)
    requires i < |subs|
    ensures |r| == |subs| && forall k :: 0 <= k < |subs| && k != i ==> r[k] == subs[k]
  {
    subs[i := subs[i].(marks := Some(marks), feedback := Some(feedback), status := "graded")]
  }

  /** How far a pair has come: 0 pending (no row), 1 submitted, 2 graded. */
  function Stage(subs: seq<Submission>, examId: int, student: int): (n: nat)
    ensures n <= 2
  {
    match FindSub(subs, examId, student)
      case None => 0
      case Some(i) => if subs[i].status == "graded" then 2 else 1
  }

  /** Grading keeps the invariants, and the graded row carries the marks and feedback. */
  lemma GradeEffect(subs: seq<Submission>, next: int, i: nat, marks: int, feedback: string)
    requires OnePerPair(subs) && SubIdsBelow(subs, next) && StatusesKnown(subs) && i < |subs|
    ensures var r := GradeAt(subs, i, marks, feedback);
            OnePerPair(r) && SubIdsBelow(r, next) && StatusesKnown(r)
            && r[i].status == "graded" && r[i].marks == Some(marks) && r[i].feedback == Some(feedback)
            && Stage(r, subs[i].examId, subs[i].studentId) == 2
  {
    var r := GradeAt(subs, i, marks, feedback);
    FindSubAt(r, i, subs[i].examId, subs[i].studentId);
  }

  /** Status only moves forward, pending to submitted to graded: neither submitting
      nor grading lowers the stage of any (exam, student) pair. */
  lemma StagesOnlyAdvance(subs: seq<Submission>, next: int, examId: int, student: int, now: int,
                          upload: Option<string>, i: nat, marks: int, feedback: string, e: int, s: int)
    requires OnePerPair(subs) && i < |subs|
    ensures Stage(Submit(subs, next, examId, student, now, upload).0, e, s) >= Stage(subs, e, s)
    ensures Stage(GradeAt(subs, i, marks, feedback), e, s) >= Stage(subs, e, s)
  {
    var r := Submit(subs, next, examId, student, now, upload).0;
    SubmitEffect(subs, next, examId, student, now, upload);
    match FindSub(subs, e, s)
      case None =>
      case Some(k) =>
        if e == examId && s == student {
        } else {
          assert r[k] == subs[k];
          FindSubAt(r, k, e, s);
        }
        var g := GradeAt(subs, i, marks, feedback);
        FindSubAt(g, k, e, s);
  }

  /** A graded submission stays graded, with its marks, when the student submits again. */
  lemma ResubmitKeepsGraded(subs: seq<Submission>, next: int, i: nat, marks: int, feedback: string,
                            now: int, upload: Option<string>)
    requires OnePerPair(subs) && i < |subs|
    ensures var g := GradeAt(subs, i, marks, feedback);
            var r := Submit(g, next, subs[i].examId, subs[i].studentId, now, upload).0;
            Stage(r, subs[i].examId, subs[i].studentId) == 2
            && r[i].marks == Some(marks) && r[i].feedback == Some(feedback)
  {
    var g := GradeAt(subs, i, marks, feedback);
    FindSubAt(g, i, subs[i].examId, subs[i].studentId);
    SubmitEffect(g, next, subs[i].examId, subs[i].studentId, now, upload);
    StagesOnlyAdvance(g, next, subs[i].examId, subs[i].studentId, now, upload, i, marks, feedback,
                      subs[i].examId, subs[i].studentId);
  }

  // ---------------------------------------------------------------------------
  // Viewing submissions

  /** One line of `view_submissions`. */
  datatype SubmissionRow = SubmissionRow(
    id: int,
    studentId: int,
    hasFile: bool,
    submittedAt: int,
    marks: Option<int>,
    feedback: Option<string>,
    status: string,
    studentName: string,
    studentEmail: string)

  /** The row shown for one submission. The student is looked up by `User.id ==
      sub.student_id`; a missing user shows as "Unknown" with an empty email.
      `bool(file_path)` is false for a missing and for an empty path. */
  function RowOf(s: Submission, people: map<int, Person>): (r: SubmissionRow)
    ensures r.hasFile <==> s.filePath.Some? && s.filePath.value != ""
    ensures r.id == s.id && r.studentId == s.studentId && r.status == s.status && r.marks == s.marks
    ensures s.studentId !in people ==> r.studentName == "Unknown" && r.studentEmail == ""
  {
    SubmissionRow(
      s.id, s.studentId, s.filePath.Some? && s.filePath.value != "", s.submittedAt, s.marks, s.feedback, s.status,
      if s.studentId in people then people[s.studentId].fullName else "Unknown",
      if s.studentId in people then people[s.studentId].email else "")
  }

  /** `ExamSubmission.filter(exam_id == examId).all()`, in table order. */
  function SubsOfExam(subs: seq<Submission>, examId: int): (r: seq<Submission>)
    ensures |r| <= |subs|
    ensures forall s :: s in r <==> s in subs && s.examId == examId
    decreases |subs|
  {
    if subs == [] then []
    else
      var n := |subs| - 1;
      assert subs == subs[..n] + [subs[n]];
      SubsOfExam(subs[..n], examId) + (if subs[n].examId == examId then [subs[n]] else [])
  }

  function Rows(subs: seq<Submission>, people: map<int, Person>): (r: seq<SubmissionRow>)
    ensures |r| == |subs| && forall i :: 0 <= i < |subs| ==> r[i] == RowOf(subs[i], people)
  {
    seq(|subs|, i requires 0 <= i < |subs| => RowOf(subs[i], people))
  }

  lemma RowsAppend(subs: seq<Submission>, s: Submission, people: map<int, Person>)
    ensures Rows(subs + [s], people) == Rows(subs, people) + [RowOf(s, people)]
  {
  }

  /** The rows of the first k + 1 submissions: those of the first k, then the row of
      submission k when it belongs to the exam. */
  lemma RowsStep(subs: seq<Submission>, k: nat, examId: int, people: map<int, Person>)
    requires k < |subs|
    ensures Rows(SubsOfExam(subs[..k + 1], examId), people)
            == Rows(SubsOfExam(subs[..k], examId), people)
               + (if subs[k].examId == examId then [RowOf(subs[k], people)] else [])
  {
    assert subs[..k + 1][..k] == subs[..k];
    if subs[k].examId == examId {
      RowsAppend(SubsOfExam(subs[..k], examId), subs[k], people);
    }
  }

  /** Index of the exam with that id. */
  function FindExam(exams: seq<Exam>, id: int): (r: Option<nat>)
    ensures r.Some? ==> r.value < |exams| && exams[r.value].id == id
    ensures r.None? ==> forall i :: 0 <= i < |exams| ==> exams[i].id != id
    decreases |exams|
  {
    if exams == [] then None
    else if exams[0].id == id then Some(0)
    else match FindExam(exams[1..], id)
      case None => None
      case Some(k) => Some(k + 1)
  }

  /** Whether `view_submissions` lets the user see the submissions of that exam. */
  predicate MayView(exams: seq<Exam>, user: User, examId: int) {
    user.teacherProfileId.Some?
    && FindExam(exams, examId).Some?
    && exams[FindExam(exams, examId).value].teacherId == user.teacherProfileId.value
  }

  /** Every exam on a teacher's own list is one whose submissions that teacher may view. */
  lemma ListedExamsViewable(exams: seq<Exam>, user: User, e: Exam)
    requires ExamIdsUnique(exams)
    requires TeacherExams(exams, user).Ok? && e in TeacherExams(exams, user).value
    ensures MayView(exams, user, e.id)
  {
    var k :| 0 <= k < |exams| && exams[k] == e;
    var j := FindExam(exams, e.id).value;
    assert exams[j].id == exams[k].id;
  }

  // ---------------------------------------------------------------------------
  // The loops of `list_exams_student`

  /** The dictionary comprehension building `subs_map`. */
  method GatherSubs(subs: seq<Submission>, student: int, ids: set<int>) returns (m: map<int, Submission>)
    ensures m == SubsMap(subs, student, ids)
  {
    m := map[];
    for k := 0 to |subs|
      invariant m == SubsMap(subs[..k], student, ids)
    {
      assert subs[..k + 1][..k] == subs[..k];
      var s := subs[k];
      if s.studentId == student && s.examId in ids {
        m := m[s.examId := s];
      }
    }
    assert subs[..|subs|] == subs;
  }

  /** The loop appending one entry per listed exam. */
  method BuildEntries(m: map<int, Submission>, listed: seq<Exam>) returns (results: seq<ExamEntry>)
    ensures results == Entries(m, listed)
  {
    results := [];
    for i := 0 to |listed|
      invariant results == Entries(m, listed[..i])
    {
      results := results + [EntryFor(m, listed[i])];
    }
    assert listed[..|listed|] == listed;
  }

  // ---------------------------------------------------------------------------
  // The tables and the endpoints that change them

  class ExamDb {
    var exams: seq<Exam>
    var follows: seq<Follow>
    var submissions: seq<Submission>
    var nextSubId: int

    ghost predicate Valid()
      reads this
    {
      ExamIdsUnique(exams) && nextSubId >= 1
      && OnePerPair(submissions) && SubIdsBelow(submissions, nextSubId) && StatusesKnown(submissions)
    }

    constructor (exams: seq<Exam>, follows: seq<Follow>)
      requires ExamIdsUnique(exams)
      ensures Valid()
      ensures this.exams == exams && this.follows == follows && submissions == [] && nextSubId == 1
    {
      this.exams := exams;
      this.follows := follows;
      submissions := [];
      nextSubId := 1;
    }

    /** `list_exams_student`: the loop over the listed exams, with the submissions
        gathered into a map first. */
    method ListExamsStudent(user: User) returns (r: Outcome<seq<ExamEntry>>)
      ensures r == StudentExams(exams, follows, submissions, user)
    {
      if user.studentProfileId.None? {
        return Fail(400, "Student profile not found");
      }
      var student := user.studentProfileId.value;
      var listed := ExamsBy(exams, Followed(follows, student));
      var m := GatherSubs(submissions, student, ExamIds(listed));
      var results := BuildEntries(m, listed);
      r := Ok(results);
    }

    /** `submit_exam` without the file copy: `upload` is where the file was written. */
    method SubmitExam(user: User, examId: int, now: int, upload: Option<string>) returns (r: Outcome<string>)
      requires Valid()
      modifies this
      ensures Valid() && exams == old(exams) && follows == old(follows)
      ensures user.studentProfileId.None? ==>
                r == Fail(400, "Student profile not found")
                && submissions == old(submissions) && nextSubId == old(nextSubId)
      ensures user.studentProfileId.Some? && FindExam(exams, examId).None? ==>
                r == Fail(404, "Exam not found")
                && submissions == old(submissions) && nextSubId == old(nextSubId)
      ensures user.studentProfileId.Some? && FindExam(exams, examId).Some? ==>
                r == Ok("Exam submitted successfully")
                && (submissions, nextSubId)
                   == Submit(old(submissions), old(nextSubId), examId, user.studentProfileId.value, now, upload)
    {
      if user.studentProfileId.None? {
        return Fail(400, "Student profile not found");
      }
      var student := user.studentProfileId.value;
      if FindExam(exams, examId).None? {
        return Fail(404, "Exam not found");
      }
      SubmitKeepsInvariants(submissions, nextSubId, examId, student, now, upload);
      var existing := FindSub(submissions, examId, student);
      if existing.Some? {
        var i := existing.value;
        submissions := submissions[i := Resubmitted(submissions[i], now, upload)];
      } else {
        submissions := submissions + [Submission(nextSubId, examId, student, now, upload, "submitted", None, None)];
        nextSubId := nextSubId + 1;
      }
      r := Ok("Exam submitted successfully");
    }

    /** `view_submissions`: only the teacher who owns the exam sees its submissions. */
    method ViewSubmissions(user: User, examId: int, people: map<int, Person>) returns (r: Outcome<seq<SubmissionRow>>)
      ensures !MayView(exams, user, examId) ==> r == Fail(403, "Not authorized")
      ensures MayView(exams, user, examId) ==> r == Ok(Rows(SubsOfExam(submissions, examId), people))
    {
      if user.teacherProfileId.None? {
        return Fail(403, "Not authorized");
      }
      var found := FindExam(exams, examId);
      if found.None? || exams[found.value].teacherId != user.teacherProfileId.value {
        return Fail(403, "Not authorized");
      }
      var results: seq<SubmissionRow> := [];
      for k := 0 to |submissions|
        invariant results == Rows(SubsOfExam(submissions[..k], examId), people)
      {
        RowsStep(submissions, k, examId, people);
        var s := submissions[k];
        if s.examId == examId {
          results := results + [RowOf(s, people)];
        }
      }
      assert submissions[..|submissions|] == submissions;
      r := Ok(results);
    }

    /** `grade_submission`. Any teacher may grade: the exam's owner is not checked. */
    method GradeSubmission(user: User, subId: int, marks: int, feedback: string) returns (r: Outcome<string>)
      requires Valid()
      modifies this
      ensures Valid() && exams == old(exams) && follows == old(follows) && nextSubId == old(nextSubId)
      ensures user.role != "teacher" || user.teacherProfileId.None? ==>
                r == Fail(403, "Not authorized") && submissions == old(submissions)
      ensures user.role == "teacher" && user.teacherProfileId.Some? && FindSubById(old(submissions), subId).None? ==>
                r == Fail(404, "Submission not found") && submissions == old(submissions)
      ensures user.role == "teacher" && user.teacherProfileId.Some? && FindSubById(old(submissions), subId).Some? ==>
                r == Ok("Graded successfully")
                && submissions == GradeAt(old(submissions), FindSubById(old(submissions), subId).value, marks, feedback)
    {
      if user.role != "teacher" || user.teacherProfileId.None? {
        return Fail(403, "Not authorized");
      }
      var found := FindSubById(submissions, subId);
      if found.None? {
        return Fail(404, "Submission not found");
      }
      GradeEffect(submissions, nextSubId, found.value, marks, feedback);
      submissions := GradeAt(submissions, found.value, marks, feedback);
      r := Ok("Graded successfully");
    }
  }
}
