/** The study-planner page: its own copy of the calendar strip, the duration and
    days-left texts, and the handlers that edit the day's task list optimistically
    and fall back to a reload when the server refuses. */
module PlannerPage {
  import opened Wrappers
  import opened Text
  import opened Calendar
  import opened Lists
  import opened PlannerState

  // ---------------------------------------------------------------------------
  // Durations

  /** JavaScript's `%`: the remainder takes the sign of the dividend. */
  function JsRem(a: int, b: int): (r: int)
    requires b > 0
    ensures a >= 0 ==> r == a % b
    ensures a < 0 ==> -b < r <= 0 && r == -((-a) % b)
  {
    if a >= 0 then a % b else -((-a) % b)
  }

  /** `formatDuration`: "2h 5m", "2h" or "45m"; the hours are `Math.floor(m / 60)`
      and the minutes JavaScript's `m % 60`. */
  function FormatDuration(minutes: int): string {
    var h := minutes / 60;
    var m := JsRem(minutes, 60);
    if h > 0 then
      (if m > 0 then NatToString(h) + "h " + NatToString(m) + "m" else NatToString(h) + "h")
    else IntToString(m) + "m"
  }

  /** Digits followed by 'm', read as a number of minutes. */
  function MinutesText(t: string): Option<nat> {
    if |t| >= 2 && t[|t| - 1] == 'm' && AllDigits(t[..|t| - 1]) then Some(DigitsValue(t[..|t| - 1]))
    else None
  }

  /** Reads a duration text back: "<h>h", "<h>h <m>m" or "<m>m". */
  function ReadDuration(s: string): Option<nat> {
    var p := Split(s, 'h');
    if |p| == 1 then MinutesText(s)
    else if |p| == 2 && p[0] != "" && AllDigits(p[0]) then
      if p[1] == "" then Some(DigitsValue(p[0]) * 60)
      else if p[1][0] == ' ' then
        match MinutesText(p[1][1..])
        case Some(m) => Some(DigitsValue(p[0]) * 60 + m)
        case None => None
      else None
    else None
  }

  lemma DigitsHaveNo(n: nat, c: char)
    requires !IsDigit(c)
    ensures c !in NatToString(n)
  {
  }

  lemma MinutesTextOf(m: nat)
    ensures MinutesText(NatToString(m) + "m") == Some(m)
  {
    var ms := NatToString(m);
    NatToStringRoundTrip(m);
    assert (ms + "m")[..|ms|] == ms;
  }

  /** A text split at its one 'h' into hours and " <m>m" reads as both added. */
  lemma ReadTwoPieces(s: string, hs: string, rest: string, m: nat)
    requires Split(s, 'h') == [hs, rest] && hs != "" && AllDigits(hs)
    requires rest != "" && rest[0] == ' ' && MinutesText(rest[1..]) == Some(m)
    ensures ReadDuration(s) == Some(DigitsValue(hs) * 60 + m)
  {
  }

  lemma SplitHoursAndMinutes(hs: string, ms: string)
    requires 'h' !in hs && 'h' !in ms
    ensures Split(hs + "h " + ms + "m", 'h') == [hs, " " + ms + "m"]
  {
    var rest := " " + ms + "m";
    assert hs + "h " + ms + "m" == hs + ['h'] + rest;
    assert 'h' !in rest;
    SplitAfterPiece(hs, 'h', rest);
    SplitNoSep(rest, 'h');
  }

  lemma AfterSpace(ms: string)
    ensures (" " + ms + "m")[0] == ' ' && (" " + ms + "m")[1..] == ms + "m"
  {
  }

  /** "<h>h <m>m" reads back as h * 60 + m. */
  lemma ReadHoursAndMinutes(h: nat, m: nat)
    requires h > 0 && m > 0
    ensures ReadDuration(NatToString(h) + "h " + NatToString(m) + "m") == Some(h * 60 + m)
  {
    var hs, ms := NatToString(h), NatToString(m);
    var rest := " " + ms + "m";
    DigitsHaveNo(h, 'h');
    DigitsHaveNo(m, 'h');
    SplitHoursAndMinutes(hs, ms);
    AfterSpace(ms);
    NatToStringRoundTrip(h);
    MinutesTextOf(m);
    ReadTwoPieces(hs + "h " + ms + "m", hs, rest, m);
  }

  /** "<h>h" reads back as h * 60. */
  lemma ReadHours(h: nat)
    requires h > 0
    ensures ReadDuration(NatToString(h) + "h") == Some(h * 60)
  {
    var hs := NatToString(h);
    NatToStringRoundTrip(h);
    DigitsHaveNo(h, 'h');
    assert hs + "h" == hs + ['h'] + "";
    SplitAfterPiece(hs, 'h', "");
  }

  /** "<m>m" reads back as m. */
  lemma ReadMinutes(m: nat)
    ensures ReadDuration(NatToString(m) + "m") == Some(m)
  {
    var s := NatToString(m) + "m";
    DigitsHaveNo(m, 'h');
    assert 'h' !in s;
    SplitNoSep(s, 'h');
    MinutesTextOf(m);
  }

  /** No two non-negative durations print alike: the text reads back as the
      number of minutes. */
  lemma FormatDurationRoundTrip(minutes: int)
    requires minutes >= 0
    ensures ReadDuration(FormatDuration(minutes)) == Some(minutes)
  {
    var h, m := minutes / 60, minutes % 60;
    if h > 0 && m > 0 {
      ReadHoursAndMinutes(h, m);
    } else if h > 0 {
      ReadHours(h);
    } else {
      ReadMinutes(m);
    }
  }

  /** A negative duration prints as its remainder alone, with its sign. */
  lemma FormatNegativeDuration(minutes: int)
    requires minutes < 0
    ensures FormatDuration(minutes) == IntToString(JsRem(minutes, 60)) + "m"
    ensures minutes % 60 == 0 ==> FormatDuration(minutes) == "0m"
  {
    assert minutes / 60 < 0;
  }

  // ---------------------------------------------------------------------------
  // Days left before an exam

  /** Whole days from today to the exam's day, both taken at midnight. */
  function DaysUntil(examTime: int, now: int): int {
    DayOf(examTime) - DayOf(now)
  }

  /** The badge text: "Today", "Tomorrow", or "<n> days left" (also for past days). */
  function DaysLeftLabel(diffDays: int): string {
    if diffDays == 0 then "Today"
    else if diffDays == 1 then "Tomorrow"
    else IntToString(diffDays) + " days left"
  }

  /** The badge is drawn in the urgent style three days ahead and closer. */
  predicate Urgent(diffDays: int) {
    diffDays <= 3
  }

  const DaysLeftSuffix: string := " days left"

  /** An optionally signed decimal number. */
  function ReadInt(t: string): Option<int> {
    if |t| >= 2 && t[0] == '-' && AllDigits(t[1..]) then Some(-(DigitsValue(t[1..]) as int))
    else if |t| >= 1 && AllDigits(t) then Some(DigitsValue(t))
    else None
  }

  /** Reads a badge back as a day count. */
  function ReadDaysLeft(badge: string): Option<int> {
    if badge == "Today" then Some(0)
    else if badge == "Tomorrow" then Some(1)
    else if |badge| > |DaysLeftSuffix| && badge[|badge| - |DaysLeftSuffix|..] == DaysLeftSuffix then
      ReadInt(badge[..|badge| - |DaysLeftSuffix|])
    else None
  }

  /** Each day count has its own badge. */
  lemma DaysLeftRoundTrip(diffDays: int)
    ensures ReadDaysLeft(DaysLeftLabel(diffDays)) == Some(diffDays)
  {
    if diffDays != 0 && diffDays != 1 {
      var t := IntToString(diffDays);
      var badge := t + DaysLeftSuffix;
      assert |badge| > |DaysLeftSuffix| && badge != "Today" && badge != "Tomorrow";
      assert badge[..|badge| - |DaysLeftSuffix|] == t;
      assert badge[|badge| - |DaysLeftSuffix|..] == DaysLeftSuffix;
      if diffDays < 0 {
        NatToStringRoundTrip(-diffDays);
        assert t[1..] == NatToString(-diffDays);
      } else {
        NatToStringRoundTrip(diffDays);
        assert t[0] != '-' by { assert IsDigit(t[0]); }
      }
    }
  }

  /** "Today" and "Tomorrow" name exactly the days 0 and 1, both urgent. */
  lemma NearLabels(diffDays: int)
    ensures DaysLeftLabel(diffDays) == "Today" <==> diffDays == 0
    ensures DaysLeftLabel(diffDays) == "Tomorrow" <==> diffDays == 1
    ensures diffDays == 0 || diffDays == 1 ==> Urgent(diffDays)
  {
    if diffDays != 0 && diffDays != 1 {
      assert |DaysLeftLabel(diffDays)| > |"Tomorrow"|;
    }
  }

  // ---------------------------------------------------------------------------
  // Task edits

  /** `currentStatus === 'completed' ? 'pending' : 'completed'`. */
  function NewStatus(current: string): string {
    if current == "completed" then "pending" else "completed"
  }

  /** Toggling always changes the status, and toggling twice restores exactly the
      two statuses the toggle produces. */
  lemma NewStatusToggles(current: string)
    ensures NewStatus(current) != current
    ensures NewStatus(NewStatus(current)) == current <==> current == "completed" || current == "pending"
  {
    assert "pending" != "completed" by { assert "pending"[0] != "completed"[0]; }
  }

  function WithStatus(t: Task, status: string): (r: Task)
    ensures r.status == status
  {
    t.(status := status)
  }

  /** The completion toggle changes the status of the task with the id, and only
      that field of only that task. */
  lemma ToggleOnlyTarget(tasks: seq<Task>, taskId: int, current: string, k: nat)
    requires k < |tasks|
    ensures |UpdateById(tasks, TaskId, taskId, t => WithStatus(t, NewStatus(current)))| == |tasks|
    ensures tasks[k].id == taskId ==>
              UpdateById(tasks, TaskId, taskId, t => WithStatus(t, NewStatus(current)))[k]
                == tasks[k].(status := NewStatus(current))
    ensures tasks[k].id != taskId ==>
              UpdateById(tasks, TaskId, taskId, t => WithStatus(t, NewStatus(current)))[k] == tasks[k]
  {
    UpdateByIdAt(tasks, TaskId, taskId, t => WithStatus(t, NewStatus(current)), k);
  }

  /** `Partial<StudyTask>`: each field may be absent. */
  datatype TaskPatch = TaskPatch(id: Option<int>, title: Option<string>, taskType: Option<string>,
                                 startTime: Option<int>, durationMinutes: Option<int>,
                                 status: Option<string>, color: Option<string>)

  const EmptyPatch := TaskPatch(None, None, None, None, None, None, None)

  function Pick<T>(o: Option<T>, v: T): T {
    match o
    case Some(x) => x
    case None => v
  }

  /** `{ ...t, ...patch }`: the fields present in the patch win. */
  function Merge(t: Task, p: TaskPatch): Task {
    Task(Pick(p.id, t.id), Pick(p.title, t.title), Pick(p.taskType, t.taskType),
         Pick(p.startTime, t.startTime), Pick(p.durationMinutes, t.durationMinutes),
         Pick(p.status, t.status), Pick(p.color, t.color))
  }

  function PickLater<T>(a: Option<T>, b: Option<T>): Option<T> {
    if b.Some? then b else a
  }

  /** Two patches spread one after the other: the later one wins field by field. */
  function Then(p: TaskPatch, q: TaskPatch): TaskPatch {
    TaskPatch(PickLater(p.id, q.id), PickLater(p.title, q.title), PickLater(p.taskType, q.taskType),
              PickLater(p.startTime, q.startTime), PickLater(p.durationMinutes, q.durationMinutes),
              PickLater(p.status, q.status), PickLater(p.color, q.color))
  }

  /** The empty patch changes nothing, a patch applied twice is applied once, and
      two patches in a row are their combination. */
  lemma MergeLaws(t: Task, p: TaskPatch, q: TaskPatch)
    ensures Merge(t, EmptyPatch) == t
    ensures Merge(Merge(t, p), p) == Merge(t, p)
    ensures Merge(Merge(t, p), q) == Merge(t, Then(p, q))
  {
  }

  /** A patch without an id keeps the task's id, so a reschedule keeps every id of
      the list in place. */
  lemma RescheduleKeepsIds(tasks: seq<Task>, key: int, p: TaskPatch)
    requires p.id.None?
    ensures Ids(UpdateById(tasks, TaskId, key, t => Merge(t, p)), TaskId) == Ids(tasks, TaskId)
  {
    UpdateByIdKeepsIds(tasks, TaskId, key, t => Merge(t, p));
  }

  /** What the server answered to an update: success, or failure followed by the
      reload of the day's tasks (None when the reload failed as well). */
  datatype Reply = Accepted | Refused(reload: Option<seq<Task>>)

  /** The part of the page state these handlers touch. */
  class PlannerPage {
    var tasks: seq<Task>
    var calendarDays: seq<CalendarDay>
    var taskToDelete: Option<Task>
    var taskToReschedule: Option<Task>
    var userEnergyPref: Option<string>
    var isAIModalOpen: bool
    var isEnergyModalOpen: bool

    constructor ()
      ensures tasks == [] && calendarDays == [] && taskToDelete.None? && taskToReschedule.None?
      ensures userEnergyPref.None? && !isAIModalOpen && !isEnergyModalOpen
    {
      tasks := [];
      calendarDays := [];
      taskToDelete := None;
      taskToReschedule := None;
      userEnergyPref := None;
      isAIModalOpen := false;
      isEnergyModalOpen := false;
    }

    /** `fetchTasks` after a failed request: the reload replaces the list when it
        succeeds. */
    method Reload(reply: Reply)
      modifies this
      ensures reply.Refused? && reply.reload.Some? ==> tasks == reply.reload.value
      ensures !(reply.Refused? && reply.reload.Some?) ==> tasks == old(tasks)
      ensures calendarDays == old(calendarDays) && taskToDelete == old(taskToDelete)
      ensures taskToReschedule == old(taskToReschedule) && userEnergyPref == old(userEnergyPref)
      ensures isAIModalOpen == old(isAIModalOpen) && isEnergyModalOpen == old(isEnergyModalOpen)
    {
      if reply.Refused? && reply.reload.Some? {
        tasks := reply.reload.value;
      }
    }

    /** `fetchCalendarRange`: the same strip as the planner context builds, from
        all tasks; a failed request leaves the strip as it was. */
    method FetchCalendarRange(response: Option<seq<Task>>, now: int)
      modifies this
      ensures response.Some? ==> calendarDays == CalendarRange(response.value, now)
      ensures response.None? ==> calendarDays == old(calendarDays)
      ensures tasks == old(tasks) && taskToDelete == old(taskToDelete)
      ensures taskToReschedule == old(taskToReschedule) && userEnergyPref == old(userEnergyPref)
      ensures isAIModalOpen == old(isAIModalOpen) && isEnergyModalOpen == old(isEnergyModalOpen)
    {
      if response.Some? {
        calendarDays := CalculateCalendarRange(response.value, now);
      }
    }

    /** `handleTaskCompletion`: the optimistic toggle, then the reload on failure. */
    method HandleTaskCompletion(taskId: int, currentStatus: string, reply: Reply)
      modifies this
      ensures reply.Accepted? ==>
                tasks == UpdateById(old(tasks), TaskId, taskId, t => WithStatus(t, NewStatus(currentStatus)))
      ensures reply.Refused? ==>
                tasks == Pick(reply.reload,
                              UpdateById(old(tasks), TaskId, taskId, t => WithStatus(t, NewStatus(currentStatus))))
      ensures calendarDays == old(calendarDays) && taskToDelete == old(taskToDelete)
      ensures taskToReschedule == old(taskToReschedule) && userEnergyPref == old(userEnergyPref)
      ensures isAIModalOpen == old(isAIModalOpen) && isEnergyModalOpen == old(isEnergyModalOpen)
    {
      var newStatus := NewStatus(currentStatus);
      tasks := UpdateById(tasks, TaskId, taskId, t => WithStatus(t, newStatus));
      Reload(reply);
    }

    /** `handleDeleteTask`: nothing without a selected task; otherwise the task
        leaves the list and the dialog closes before the server answers. */
    method HandleDeleteTask(reply: Reply)
      modifies this
      ensures old(taskToDelete).None? ==> tasks == old(tasks) && taskToDelete.None?
      ensures old(taskToDelete).Some? && reply.Accepted? ==>
                tasks == RemoveById(old(tasks), TaskId, old(taskToDelete).value.id)
      ensures old(taskToDelete).Some? && reply.Refused? ==>
                tasks == Pick(reply.reload, RemoveById(old(tasks), TaskId, old(taskToDelete).value.id))
      ensures taskToDelete.None?
      ensures calendarDays == old(calendarDays) && taskToReschedule == old(taskToReschedule)
      ensures userEnergyPref == old(userEnergyPref)
      ensures isAIModalOpen == old(isAIModalOpen) && isEnergyModalOpen == old(isEnergyModalOpen)
    {
      if taskToDelete.None? {
        return;
      }
      var target := taskToDelete.value;
      tasks := RemoveById(tasks, TaskId, target.id);
      taskToDelete := None;
      Reload(reply);
    }

    /** `handleRescheduleSave`: the patch is merged into the selected task; the
        dialog closes only when the server accepts. */
    method HandleRescheduleSave(patch: TaskPatch, reply: Reply)
      modifies this
      ensures old(taskToReschedule).None? ==> tasks == old(tasks) && taskToReschedule.None?
      ensures old(taskToReschedule).Some? && reply.Accepted? ==>
                tasks == UpdateById(old(tasks), TaskId, old(taskToReschedule).value.id, t => Merge(t, patch))
                && taskToReschedule.None?
      ensures old(taskToReschedule).Some? && reply.Refused? ==>
                tasks == Pick(reply.reload,
                              UpdateById(old(tasks), TaskId, old(taskToReschedule).value.id, t => Merge(t, patch)))
                && taskToReschedule == old(taskToReschedule)
      ensures calendarDays == old(calendarDays) && taskToDelete == old(taskToDelete)
      ensures userEnergyPref == old(userEnergyPref)
      ensures isAIModalOpen == old(isAIModalOpen) && isEnergyModalOpen == old(isEnergyModalOpen)
    {
      if taskToReschedule.None? {
        return;
      }
      var target := taskToReschedule.value;
      tasks := UpdateById(tasks, TaskId, target.id, t => Merge(t, patch));
      if reply.Accepted? {
        taskToReschedule := None;
      } else {
        Reload(reply);
      }
    }

    /** `handleGenerateClick`: with a preference set (a non-empty string) the plan
        dialog opens, otherwise the energy-preference dialog. */
    method HandleGenerateClick()
      modifies this
      ensures HasPreference(userEnergyPref) ==> isAIModalOpen && isEnergyModalOpen == old(isEnergyModalOpen)
      ensures !HasPreference(userEnergyPref) ==> isEnergyModalOpen && isAIModalOpen == old(isAIModalOpen)
      ensures tasks == old(tasks) && calendarDays == old(calendarDays) && userEnergyPref == old(userEnergyPref)
      ensures taskToDelete == old(taskToDelete) && taskToReschedule == old(taskToReschedule)
    {
      if HasPreference(userEnergyPref) {
        isAIModalOpen := true;
      } else {
        isEnergyModalOpen := true;
      }
    }

    /** `handleEnergySelect`: the chosen preference is kept and the plan dialog
        replaces the energy dialog. */
    method HandleEnergySelect(preference: string)
      modifies this
      ensures userEnergyPref == Some(preference) && !isEnergyModalOpen && isAIModalOpen
      ensures tasks == old(tasks) && calendarDays == old(calendarDays)
      ensures taskToDelete == old(taskToDelete) && taskToReschedule == old(taskToReschedule)
    {
      userEnergyPref := Some(preference);
      isEnergyModalOpen := false;
      isAIModalOpen := true;
    }
  }

  /** JavaScript truthiness of `string | null`: null and "" are false. */
  predicate HasPreference(pref: Option<string>) {
    pref.Some? && pref.value != ""
  }
}
