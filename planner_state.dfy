/** The study-planner state container of the frontend: the task list fetched from
    the backend, the calendar strip built from it, the exams read off it, the
    loading flags, and the optimistic list updates the pages apply. */
module PlannerState {
  import opened Wrappers
  import opened Text
  import opened Calendar
  import opened Sorting
  import opened Lists
  import opened Arith

  /** A task as the backend lists it; `start_time` is read as minutes. */
  datatype Task = Task(id: int, title: string, taskType: string, startTime: int,
                       durationMinutes: int, status: string, color: string)

  function TaskId(t: Task): int { t.id }

  /** One cell of the calendar strip; `fullDate` is a time in minutes. */
  datatype CalendarDay = CalendarDay(day: string, date: int, fullDate: int, active: bool, hasTask: bool)

  /** An exam shown in the planner, here always one read off a task. */
  datatype ExamInfo = ExamInfo(id: int, title: string, deadline: int, durationMinutes: int)
  datatype ExamResponse = ExamResponse(exam: ExamInfo, status: string, marks: Option<int>)

  // ---------------------------------------------------------------------------
  // The calendar strip

  /** `Math.min(...timestamps)`. */
  function EarliestStart(tasks: seq<Task>): (m: int)
    requires tasks != []
    ensures exists k :: 0 <= k < |tasks| && tasks[k].startTime == m
    ensures forall k :: 0 <= k < |tasks| ==> m <= tasks[k].startTime
    decreases |tasks|
  {
    if |tasks| == 1 then tasks[0].startTime
    else
      var rest := EarliestStart(tasks[1..]);
      assert forall k :: 1 <= k < |tasks| ==> tasks[k] == tasks[1..][k - 1];
      if tasks[0].startTime <= rest then tasks[0].startTime else rest
  }

  /** `Math.max(...timestamps)`. */
  function LatestStart(tasks: seq<Task>): (m: int)
    requires tasks != []
    ensures exists k :: 0 <= k < |tasks| && tasks[k].startTime == m
    ensures forall k :: 0 <= k < |tasks| ==> tasks[k].startTime <= m
    decreases |tasks|
  {
    if |tasks| == 1 then tasks[0].startTime
    else
      var rest := LatestStart(tasks[1..]);
      assert forall k :: 1 <= k < |tasks| ==> tasks[k] == tasks[1..][k - 1];
      if tasks[0].startTime >= rest then tasks[0].startTime else rest
  }

  /** Some task starts on day d (`taskDates.has(current.toDateString())`). */
  predicate HasTaskOn(tasks: seq<Task>, d: int) {
    exists k :: 0 <= k < |tasks| && DayOf(tasks[k].startTime) == d
  }

  /** The cell of day d: weekday, day of month, its midnight, and whether a task
      starts that day. */
  function DayEntry(tasks: seq<Task>, d: int): CalendarDay {
    CalendarDay(WeekdayShort(d), DayOfMonth(d), d * MinutesPerDay, true, HasTaskOn(tasks, d))
  }

  /** The single cell shown for an empty list: today, at the current time. */
  function TodayEntry(now: int): CalendarDay {
    CalendarDay(WeekdayShort(DayOf(now)), DayOfMonth(DayOf(now)), now, true, false)
  }

  function FirstDay(tasks: seq<Task>): int
    requires tasks != []
  {
    DayOf(EarliestStart(tasks))
  }

  function LastDay(tasks: seq<Task>): (d: int)
    requires tasks != []
    ensures FirstDay(tasks) <= d
  {
    DivMonotone(EarliestStart(tasks), LatestStart(tasks), MinutesPerDay);
    DayOf(LatestStart(tasks))
  }

  /** `calculateCalendarRange`: one cell per day from the earliest to the latest
      task day, or today alone. */
  function CalendarRange(tasks: seq<Task>, now: int): (r: seq<CalendarDay>)
    ensures tasks == [] ==> |r| == 1
    ensures tasks != [] ==> |r| == LastDay(tasks) - FirstDay(tasks) + 1
  {
    if tasks == [] then [TodayEntry(now)]
    else
      seq(LastDay(tasks) - FirstDay(tasks) + 1,
          k requires 0 <= k <= LastDay(tasks) - FirstDay(tasks) => DayEntry(tasks, FirstDay(tasks) + k))
  }

  /** `calculateCalendarRange`: the earliest and latest task times, the set of days
      that have a task, then the walk over midnights. */
  method CalculateCalendarRange(tasks: seq<Task>, now: int) returns (days: seq<CalendarDay>)
    ensures days == CalendarRange(tasks, now)
  {
    if |tasks| == 0 {
      return [TodayEntry(now)];
    }
    var minDate := EarliestStart(tasks);
    var maxDate := LatestStart(tasks);
    var taskDates := set k | 0 <= k < |tasks| :: DayOf(tasks[k].startTime);
    days := WalkDays(tasks, taskDates, StartOfDay(minDate), StartOfDay(maxDate) + MinutesPerDay - 1);
    RangeFromCells(tasks, now, days);
  }

  /** The loop of `calculateCalendarRange`: a midnight walked forward one day at a
      time up to `end`, one cell per midnight, marked when its day is in
      `taskDates`. */
  method WalkDays(tasks: seq<Task>, taskDates: set<int>, start: int, end: int) returns (days: seq<CalendarDay>)
    requires start % MinutesPerDay == 0 && start <= end + 1
    requires forall d :: d in taskDates <==> HasTaskOn(tasks, d)
    ensures |days| == DayOf(end) - DayOf(start) + 1
    ensures forall k :: 0 <= k < |days| ==> days[k] == DayEntry(tasks, DayOf(start) + k)
  {
    var first := DayOf(start);
    var last := DayOf(end);
    DivModUnique(start, MinutesPerDay, first, 0);
    DivModUnique(end, MinutesPerDay, last, end % MinutesPerDay);
    var current := start;
    days := [];
    while current <= end
      invariant current == (first + |days|) * MinutesPerDay
      invariant |days| <= last - first + 1
      invariant forall k :: 0 <= k < |days| ==> days[k] == DayEntry(tasks, first + k)
      decreases end - current
    {
      var d := DayOf(current);
      assert d == first + |days| by {
        DivModUnique(current, MinutesPerDay, first + |days|, 0);
      }
      MidnightOrder(d, last);
      days := days + [CalendarDay(WeekdayShort(d), DayOfMonth(d), current, true, d in taskDates)];
      current := current + MinutesPerDay;
    }
    MidnightOrder(first + |days|, last);
  }

  /** The cells of the task days, first to last, are the calendar strip. */
  lemma RangeFromCells(tasks: seq<Task>, now: int, days: seq<CalendarDay>)
    requires tasks != [] && |days| == LastDay(tasks) - FirstDay(tasks) + 1
    requires forall k :: 0 <= k < |days| ==> days[k] == DayEntry(tasks, FirstDay(tasks) + k)
    ensures days == CalendarRange(tasks, now)
  {
    var range := CalendarRange(tasks, now);
    forall k | 0 <= k < |days|
      ensures days[k] == range[k]
    {
      CalendarRangeAt(tasks, now, k);
    }
  }

  /** The midnight of day a is within day b or earlier exactly when a <= b. */
  lemma MidnightOrder(a: int, b: int)
    ensures a * MinutesPerDay <= b * MinutesPerDay + MinutesPerDay - 1 <==> a <= b
  {
    if a <= b {
      MulMonotone(MinutesPerDay, a, b);
    } else {
      MulMonotone(MinutesPerDay, b + 1, a);
    }
  }

  lemma CalendarRangeAt(tasks: seq<Task>, now: int, k: nat)
    requires tasks != [] && k < |CalendarRange(tasks, now)|
    ensures CalendarRange(tasks, now)[k] == DayEntry(tasks, FirstDay(tasks) + k)
  {
  }

  /** An empty list shows exactly one cell: today, without a task. */
  lemma CalendarOfNothing(now: int)
    ensures |CalendarRange([], now)| == 1
    ensures CalendarRange([], now)[0].fullDate == now && !CalendarRange([], now)[0].hasTask
    ensures CalendarRange([], now)[0].day == WeekdayShort(DayOf(now))
    ensures CalendarRange([], now)[0].date == DayOfMonth(DayOf(now))
  {
  }

  /** Otherwise the cells are consecutive midnights from the earliest task's day to
      the latest task's day, and a cell is marked exactly when a task starts on it. */
  lemma CalendarCells(tasks: seq<Task>, now: int, k: nat)
    requires tasks != [] && k < |CalendarRange(tasks, now)|
    ensures CalendarRange(tasks, now)[k].fullDate == (DayOf(EarliestStart(tasks)) + k) * MinutesPerDay
    ensures CalendarRange(tasks, now)[k].hasTask <==>
              exists j :: 0 <= j < |tasks| && DayOf(tasks[j].startTime) == DayOf(EarliestStart(tasks)) + k
    ensures k + 1 == |CalendarRange(tasks, now)| ==>
              DayOf(CalendarRange(tasks, now)[k].fullDate) == DayOf(LatestStart(tasks))
  {
    var d := FirstDay(tasks) + k;
    CalendarRangeAt(tasks, now, k);
    DivModUnique(d * MinutesPerDay, MinutesPerDay, d, 0);
  }

  /** Every task's day has its cell. */
  lemma CalendarCoversTasks(tasks: seq<Task>, now: int, j: nat)
    requires j < |tasks|
    ensures exists k :: 0 <= k < |CalendarRange(tasks, now)|
              && CalendarRange(tasks, now)[k].fullDate == StartOfDay(tasks[j].startTime)
              && CalendarRange(tasks, now)[k].hasTask
  {
    var r := CalendarRange(tasks, now);
    var d := DayOf(tasks[j].startTime);
    DivMonotone(EarliestStart(tasks), tasks[j].startTime, MinutesPerDay);
    DivMonotone(tasks[j].startTime, LatestStart(tasks), MinutesPerDay);
    var k := d - FirstDay(tasks);
    assert r[k] == DayEntry(tasks, d);
  }

  // ---------------------------------------------------------------------------
  // Exams read off the tasks

  /** `task_type.toLowerCase() === 'exam' || title.toLowerCase().includes('exam')`. */
  predicate IsExamTask(t: Task) {
    Lower(t.taskType) == "exam" || Contains(Lower(t.title), "exam")
  }

  function ToExam(t: Task): ExamResponse {
    ExamResponse(ExamInfo(-t.id, t.title, t.startTime, t.durationMinutes), "personal", None)
  }

  function DeadlineKey(e: ExamResponse): Rank {
    Rank(e.exam.deadline, 0)
  }

  /** The exam tasks, converted, sorted by deadline (the teacher list is empty):
      one exam per exam task, earliest deadline first. */
  function PersonalExams(tasks: seq<Task>): (r: seq<ExamResponse>)
    ensures |r| == |Filter(tasks, IsExamTask)|
    ensures SortedBy(r, DeadlineKey)
  {
    SortBy(Map(Filter(tasks, IsExamTask), ToExam), DeadlineKey)
  }

  /** Each listed exam comes from an exam task of the list (`ToExam`: id negated,
      deadline at the task's start, status 'personal', no marks). */
  lemma ExamsFromExamTasks(tasks: seq<Task>, e: ExamResponse)
    requires e in PersonalExams(tasks)
    ensures exists t :: t in tasks && IsExamTask(t) && e == ToExam(t)
    ensures e.status == "personal" && e.marks.None?
  {
    var kept := Filter(tasks, IsExamTask);
    var mapped := Map(kept, ToExam);
    SortedMember(mapped, DeadlineKey, e);
    var k :| 0 <= k < |mapped| && mapped[k] == e;
    var t := kept[k];
    FilterMember(tasks, IsExamTask, t);
  }

  /** Every exam task is listed. */
  lemma ExamTasksListed(tasks: seq<Task>, t: Task)
    requires t in tasks && IsExamTask(t)
    ensures ToExam(t) in PersonalExams(tasks)
  {
    var kept := Filter(tasks, IsExamTask);
    FilterMember(tasks, IsExamTask, t);
    var k :| 0 <= k < |kept| && kept[k] == t;
    assert Map(kept, ToExam)[k] == ToExam(t);
    SortedMember(Map(kept, ToExam), DeadlineKey, ToExam(t));
  }

  // ---------------------------------------------------------------------------
  // The context

  class PlannerContext {
    var allTasks: seq<Task>
    var exams: seq<ExamResponse>
    var calendarDays: seq<CalendarDay>
    var userEnergyPref: Option<string>
    var isLoaded: bool
    var isLoading: bool

    constructor ()
      ensures allTasks == [] && exams == [] && calendarDays == [] && userEnergyPref.None?
      ensures !isLoaded && !isLoading
    {
      allTasks := [];
      exams := [];
      calendarDays := [];
      userEnergyPref := None;
      isLoaded := false;
      isLoading := false;
    }

    /** `fetchData` (also `refreshData`). Without a user nothing happens. `response`
        is the task list the backend returned, or None when the request failed:
        then only the loading flag moves. */
    method FetchData(loggedIn: bool, response: Option<seq<Task>>, now: int)
      modifies this
      ensures !loggedIn ==>
                allTasks == old(allTasks) && exams == old(exams) && calendarDays == old(calendarDays)
                && isLoaded == old(isLoaded) && isLoading == old(isLoading)
      ensures loggedIn ==> !isLoading
      ensures loggedIn && response.Some? ==>
                allTasks == response.value && calendarDays == CalendarRange(response.value, now)
                && exams == PersonalExams(response.value) && isLoaded
      ensures loggedIn && response.None? ==>
                allTasks == old(allTasks) && exams == old(exams) && calendarDays == old(calendarDays)
                && isLoaded == old(isLoaded)
      ensures userEnergyPref == old(userEnergyPref)
    {
      if !loggedIn {
        return;
      }
      isLoading := true;
      if response.Some? {
        Load(response.value, now);
      }
      isLoading := false;
    }

    /** The success path of `fetchData`: the tasks, the calendar strip and the
        exams are all taken from the same response. */
    method Load(tasks: seq<Task>, now: int)
      modifies this
      ensures allTasks == tasks && calendarDays == CalendarRange(tasks, now)
      ensures exams == PersonalExams(tasks) && isLoaded
      ensures isLoading == old(isLoading) && userEnergyPref == old(userEnergyPref)
    {
      allTasks := tasks;
      calendarDays := CalculateCalendarRange(tasks, now);
      exams := PersonalExams(tasks);
      isLoaded := true;
    }

    /** `ensureDataLoaded`: fetches only when neither loaded nor loading. */
    method EnsureDataLoaded(loggedIn: bool, response: Option<seq<Task>>, now: int)
      modifies this
      ensures old(isLoaded) || old(isLoading) ==>
                allTasks == old(allTasks) && exams == old(exams) && calendarDays == old(calendarDays)
                && isLoaded == old(isLoaded) && isLoading == old(isLoading)
      ensures !old(isLoaded) && !old(isLoading) && !loggedIn ==>
                allTasks == old(allTasks) && exams == old(exams) && calendarDays == old(calendarDays)
                && !isLoaded && !isLoading
      ensures !old(isLoaded) && !old(isLoading) && loggedIn && response.Some? ==>
                allTasks == response.value && calendarDays == CalendarRange(response.value, now)
                && exams == PersonalExams(response.value) && isLoaded && !isLoading
      ensures !old(isLoaded) && !old(isLoading) && loggedIn && response.None? ==>
                allTasks == old(allTasks) && exams == old(exams) && calendarDays == old(calendarDays)
                && !isLoaded && !isLoading
      ensures userEnergyPref == old(userEnergyPref)
    {
      if !isLoaded && !isLoading {
        FetchData(loggedIn, response, now);
      }
    }

    /** `updateTask`. */
    method UpdateTask(u: Task)
      modifies this
      ensures allTasks == ReplaceById(old(allTasks), TaskId, u)
      ensures exams == old(exams) && calendarDays == old(calendarDays) && userEnergyPref == old(userEnergyPref)
      ensures isLoaded == old(isLoaded) && isLoading == old(isLoading)
    {
      allTasks := ReplaceById(allTasks, TaskId, u);
    }

    /** `updateTasksBulk`. */
    method UpdateTasksBulk(us: seq<Task>)
      modifies this
      ensures allTasks == BulkReplace(old(allTasks), us, TaskId)
      ensures exams == old(exams) && calendarDays == old(calendarDays) && userEnergyPref == old(userEnergyPref)
      ensures isLoaded == old(isLoaded) && isLoading == old(isLoading)
    {
      allTasks := BulkReplace(allTasks, us, TaskId);
    }

    /** `deleteTask`. */
    method DeleteTask(taskId: int)
      modifies this
      ensures allTasks == RemoveById(old(allTasks), TaskId, taskId)
      ensures exams == old(exams) && calendarDays == old(calendarDays) && userEnergyPref == old(userEnergyPref)
      ensures isLoaded == old(isLoaded) && isLoading == old(isLoading)
    {
      allTasks := RemoveById(allTasks, TaskId, taskId);
    }

    /** `addTask`. */
    method AddTask(t: Task)
      modifies this
      ensures allTasks == old(allTasks) + [t]
      ensures exams == old(exams) && calendarDays == old(calendarDays) && userEnergyPref == old(userEnergyPref)
      ensures isLoaded == old(isLoaded) && isLoading == old(isLoading)
    {
      allTasks := allTasks + [t];
    }

    /** `setUserEnergyPref`. */
    method SetUserEnergyPref(pref: string)
      modifies this
      ensures userEnergyPref == Some(pref)
      ensures allTasks == old(allTasks) && exams == old(exams) && calendarDays == old(calendarDays)
      ensures isLoaded == old(isLoaded) && isLoading == old(isLoading)
    {
      userEnergyPref := Some(pref);
    }

    /** The effect run when the user becomes null: tasks and exams are cleared and
        the next `ensureDataLoaded` fetches again. */
    method Logout()
      modifies this
      ensures allTasks == [] && exams == [] && !isLoaded
      ensures calendarDays == old(calendarDays) && isLoading == old(isLoading)
      ensures userEnergyPref == old(userEnergyPref)
    {
      allTasks := [];
      exams := [];
      isLoaded := false;
    }
  }
}
