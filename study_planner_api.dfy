/** The AI study-plan endpoints: `POST /generate`, which validates the request,
    asks Gemini for a plan and stores the items that fall before the exam, the
    Gemini model-name selection, and `PATCH /tasks/ai/{id}/complete`. The Gemini
    reply enters the model as an already parsed list of items. */
module StudyPlannerApi {
  import opened Wrappers
  import opened Text
  import opened Calendar
  import opened Strptime
  import opened PlannerDb
  import opened Accounts
  import opened Arith

  // ---------------------------------------------------------------------------
  // Model selection

  /** An entry of `genai.list_models()`. */
  datatype ModelInfo = ModelInfo(name: string, methods: seq<string>)

  const DefaultModel: string := "models/gemini-1.5-flash"

  /** Names of the models that support `generateContent`, in listing order. */
  function ValidNames(models: seq<ModelInfo>): (r: seq<string>)
    ensures |r| <= |models|
    decreases |models|
  {
    if models == [] then []
    else
      var last := models[|models| - 1];
      ValidNames(models[..|models| - 1]) + (if "generateContent" in last.methods then [last.name] else [])
  }

  /** Index of the first name containing `sub`, after lower-casing when `fold` holds. */
  function FirstContaining(names: seq<string>, sub: string, fold: bool): (r: Option<nat>)
    ensures r.Some? ==>
              r.value < |names|
              && Contains(if fold then Lower(names[r.value]) else names[r.value], sub)
              && forall k :: 0 <= k < r.value ==> !Contains(if fold then Lower(names[k]) else names[k], sub)
    ensures r.None? ==> forall k :: 0 <= k < |names| ==> !Contains(if fold then Lower(names[k]) else names[k], sub)
    decreases |names|
  {
    if names == [] then None
    else if Contains(if fold then Lower(names[0]) else names[0], sub) then Some(0)
    else match FirstContaining(names[1..], sub, fold)
      case None => None
      case Some(k) => Some(k + 1)
  }

  /** `get_valid_gemini_model`. `listing` is None when listing the models raises;
      `desired` is the GEMINI_MODEL variable. */
  function ChooseModel(listing: Option<seq<ModelInfo>>, desired: Option<string>): string {
    var fallback := if desired.Some? && desired.value != "" then desired.value else DefaultModel;
    match listing
      case None => fallback
      case Some(models) =>
        var valid := ValidNames(models);
        var byName := if desired.Some? && desired.value != "" then FirstContaining(valid, desired.value, false) else None;
        if byName.Some? then valid[byName.value]
        else
          var flash := FirstContaining(valid, "flash", true);
          if flash.Some? then valid[flash.value]
          else if valid != [] then valid[0]
          else fallback
  }

  /** Whenever some listed model supports generateContent, one of those is chosen;
      the configured name wins over "flash", which wins over the first valid name. */
  lemma ChooseModelPicksValid(models: seq<ModelInfo>, desired: Option<string>)
    ensures ValidNames(models) != [] ==> ChooseModel(Some(models), desired) in ValidNames(models)
    ensures ValidNames(models) == [] ==>
              ChooseModel(Some(models), desired) == ChooseModel(None, desired)
    ensures desired.Some? && desired.value != "" && (exists k :: 0 <= k < |ValidNames(models)| && Contains(ValidNames(models)[k], desired.value)) ==>
              Contains(ChooseModel(Some(models), desired), desired.value)
  {
    var valid := ValidNames(models);
    if desired.Some? && desired.value != "" && (exists k :: 0 <= k < |valid| && Contains(valid[k], desired.value)) {
      var k :| 0 <= k < |valid| && Contains(valid[k], desired.value);
      assert FirstContaining(valid, desired.value, false).Some?;
    }
  }

  /** Without a usable listing the configured name is used, or the built-in default. */
  lemma ChooseModelFallback(desired: Option<string>)
    ensures desired.Some? && desired.value != "" ==> ChooseModel(None, desired) == desired.value
    ensures (desired.None? || desired.value == "") ==> ChooseModel(None, desired) == DefaultModel
  {
  }

  /** The loops of `get_valid_gemini_model`. */
  method SelectModel(listing: Option<seq<ModelInfo>>, desired: Option<string>) returns (name: string)
    ensures name == ChooseModel(listing, desired)
  {
    if listing.Some? {
      var models := listing.value;
      var valid: seq<string> := [];
      for i := 0 to |models|
        invariant valid == ValidNames(models[..i])
      {
        assert models[..i + 1][..i] == models[..i];
        if "generateContent" in models[i].methods {
          valid := valid + [models[i].name];
        }
      }
      assert models[..|models|] == models;
      if desired.Some? && desired.value != "" {
        var j := 0;
        while j < |valid|
          invariant 0 <= j <= |valid|
          invariant forall k :: 0 <= k < j ==> !Contains(valid[k], desired.value)
        {
          if Contains(valid[j], desired.value) {
            FirstContainingIs(valid, desired.value, false, j);
            return valid[j];
          }
          j := j + 1;
        }
      }
      var j := 0;
      while j < |valid|
        invariant 0 <= j <= |valid|
        invariant forall k :: 0 <= k < j ==> !Contains(Lower(valid[k]), "flash")
      {
        if Contains(Lower(valid[j]), "flash") {
          FirstContainingIs(valid, "flash", true, j);
          return valid[j];
        }
        j := j + 1;
      }
      if valid != [] {
        return valid[0];
      }
    }
    name := if desired.Some? && desired.value != "" then desired.value else DefaultModel;
  }

  lemma FirstContainingIs(names: seq<string>, sub: string, fold: bool, j: nat)
    requires j < |names| && Contains(if fold then Lower(names[j]) else names[j], sub)
    requires forall k :: 0 <= k < j ==> !Contains(if fold then Lower(names[k]) else names[k], sub)
    ensures FirstContaining(names, sub, fold) == Some(j)
  {
    var r := FirstContaining(names, sub, fold);
    assert r.Some?;
  }

  // ---------------------------------------------------------------------------
  // Reconciling the AI reply

  /** A number field of a reply item: the key left out, present as JSON `null`,
      or present with an integer. */
  datatype JsonInt = Missing | Null | Given(value: int)

  /** An item of the Gemini reply; a title the reply leaves out is None. */
  datatype AiItem = AiItem(title: Option<string>, offsetDays: JsonInt, startHour: JsonInt)

  const DefaultHour: int := 9

  /** What the loop body does with one item. */
  datatype Step = Raise | Skip | Keep(task: AiTask)

  /** One iteration of the loop over `tasks_data`; `start` and `exam` are ordinals. */
  function ItemStep(goal: Goal, start: int, exam: int, item: AiItem): Step {
    if !item.offsetDays.Given? then Raise                      // KeyError, or TypeError for null
    else
      var target := start + item.offsetDays.value;
      if target < 1 || target > MaxOrdinal then Raise          // OverflowError
      else if target >= exam then Skip
      else if item.startHour.Null? then Raise                  // TypeError from int(None)
      else
        var hour := if item.startHour.Given? then item.startHour.value else DefaultHour;
        if hour < 0 || hour > 23 then Raise                    // ValueError from replace()
        else if item.title.None? then Raise                    // KeyError
        else Keep(AiTask(0, goal.goalId, goal.studentId, item.title.value,
                         target * MinutesPerDay + hour * 60, None, None, None, "active"))
  }

  /** The tasks the loop stages for the items, or None when some item raises. */
  function Reconcile(goal: Goal, start: int, exam: int, items: seq<AiItem>): Option<seq<AiTask>>
    decreases |items|
  {
    if items == [] then Some([])
    else match Reconcile(goal, start, exam, items[..|items| - 1])
      case None => None
      case Some(ts) =>
        match ItemStep(goal, start, exam, items[|items| - 1])
          case Raise => None
          case Skip => Some(ts)
          case Keep(t) => Some(ts + [t])
  }

  /** Once an item raises, no later item can save the batch. */
  lemma {:induction false} ReconcileFailureSticks(goal: Goal, start: int, exam: int, items: seq<AiItem>, n: nat)
    requires n <= |items| && Reconcile(goal, start, exam, items[..n]).None?
    ensures Reconcile(goal, start, exam, items).None?
    decreases |items| - n
  {
    if n < |items| {
      assert items[..n + 1][..n] == items[..n];
      ReconcileFailureSticks(goal, start, exam, items, n + 1);
    } else {
      assert items[..n] == items;
    }
  }

  /** A stored task lies strictly before the exam day, at a whole hour of a day
      Python can represent, and belongs to the goal and its owner. */
  predicate BeforeExam(t: AiTask, goal: Goal, exam: int) {
    1 <= DayOf(t.taskTime) < exam && DayOf(t.taskTime) <= MaxOrdinal && t.taskTime % 60 == 0
    && t.goalId == goal.goalId && t.studentId == goal.studentId && t.status == "active"
  }

  lemma KeptBeforeExam(goal: Goal, start: int, exam: int, item: AiItem)
    requires ItemStep(goal, start, exam, item).Keep?
    ensures BeforeExam(ItemStep(goal, start, exam, item).task, goal, exam)
  {
    var target := start + item.offsetDays.value;
    var hour := if item.startHour.Given? then item.startHour.value else DefaultHour;
    var t := ItemStep(goal, start, exam, item).task;
    assert t.taskTime == target * MinutesPerDay + hour * 60;
    DivModUnique(t.taskTime, MinutesPerDay, target, hour * 60);
    DivModUnique(t.taskTime, 60, target * 24 + hour, 0);
  }

  /** Every staged task lies strictly before the exam day, and there are no more
      tasks than items. */
  lemma {:induction false} ReconcileBeforeExam(goal: Goal, start: int, exam: int, items: seq<AiItem>)
    requires Reconcile(goal, start, exam, items).Some?
    ensures |Reconcile(goal, start, exam, items).value| <= |items|
    ensures forall t :: t in Reconcile(goal, start, exam, items).value ==> BeforeExam(t, goal, exam)
    decreases |items|
  {
    if items != [] {
      var last := items[|items| - 1];
      ReconcileBeforeExam(goal, start, exam, items[..|items| - 1]);
      if ItemStep(goal, start, exam, last).Keep? {
        KeptBeforeExam(goal, start, exam, last);
      }
    }
  }

  /** An item without `start_hour` that is kept is scheduled at 09:00 of its day. */
  lemma DefaultsToNine(goal: Goal, start: int, exam: int, item: AiItem)
    requires item.startHour.Missing? && ItemStep(goal, start, exam, item).Keep?
    ensures HourOf(ItemStep(goal, start, exam, item).task.taskTime) == DefaultHour
    ensures DayOf(ItemStep(goal, start, exam, item).task.taskTime) == start + item.offsetDays.value
  {
  }

  /** A `start_hour` given as JSON null is not defaulted: on a day before the exam
      the item raises, so the whole reply is refused. */
  lemma NullHourRaises(goal: Goal, start: int, exam: int, items: seq<AiItem>, k: nat)
    requires k < |items| && items[k].startHour.Null? && items[k].offsetDays.Given?
    requires 1 <= start + items[k].offsetDays.value <= MaxOrdinal && start + items[k].offsetDays.value < exam
    ensures ItemStep(goal, start, exam, items[k]) == Raise
    ensures Reconcile(goal, start, exam, items).None?
  {
    assert items[..k + 1][..k] == items[..k];
    ReconcileFailureSticks(goal, start, exam, items, k + 1);
  }

  /** An item on or after the exam day is skipped, never stored and never fatal. */
  lemma LateItemSkipped(goal: Goal, start: int, exam: int, item: AiItem)
    requires item.offsetDays.Given?
    requires 1 <= start + item.offsetDays.value <= MaxOrdinal && start + item.offsetDays.value >= exam
    ensures ItemStep(goal, start, exam, item) == Skip
  {
  }

  /** The loop `for item in tasks_data`, staging each kept task with `db.add`.
      It stops at the first item that raises. */
  method StageItems(db: TaskTable, goal: Goal, start: int, exam: int, items: seq<AiItem>)
    returns (ok: bool)
    modifies db
    ensures ok <==> Reconcile(goal, start, exam, items).Some?
    ensures ok ==> db.staged == old(db.staged) + Reconcile(goal, start, exam, items).value
    ensures db.rows == old(db.rows) && db.nextId == old(db.nextId)
  {
    var created: seq<AiTask> := [];
    for i := 0 to |items|
      invariant Reconcile(goal, start, exam, items[..i]) == Some(created)
      invariant db.staged == old(db.staged) + created
      invariant db.rows == old(db.rows) && db.nextId == old(db.nextId)
    {
      assert items[..i + 1][..i] == items[..i];
      var step := ItemStep(goal, start, exam, items[i]);
      if step.Raise? {
        ReconcileFailureSticks(goal, start, exam, items, i + 1);
        return false;
      }
      if step.Keep? {
        db.Add(step.task);
        created := created + [step.task];
      }
    }
    assert items[..|items|] == items;
    ok := true;
  }

  // ---------------------------------------------------------------------------
  // The endpoint

  /** The parts of the request body the stored result depends on. */
  datatype StudyPlanRequest = StudyPlanRequest(
    goalId: int, startDate: string, examDate: string, energyPreference: Option<string>)

  /** `request.energy_preference or "balanced"`: the preference put in the prompt. */
  function EffectivePreference(p: Option<string>): (r: string)
    ensures r != ""
    ensures p.Some? && p.value != "" ==> r == p.value
  {
    if p.Some? && p.value != "" then p.value else "balanced"
  }

  /** The message of a successful generation. */
  function SuccessMessage(n: nat): string {
    "Successfully generated " + NatToString(n) + " study tasks."
  }

  /** The validation `generate_study_plan` performs before calling Gemini: the
      outcome it raises, or the goal and the two dates as ordinals. */
  function ValidatePlanRequest(goals: map<int, Goal>, userId: int, apiKey: Option<string>,
                               req: StudyPlanRequest): Outcome<(Goal, int, int)>
  {
    if apiKey.None? || apiKey.value == "" then Fail(500, "Gemini API Key not configured")
    else match OwnedGoal(goals, req.goalId, userId)
      case None => Fail(404, "Study Goal not found")
      case Some(goal) =>
        match (ParseYmd(req.startDate), ParseYmd(req.examDate))
          case (Some(s), Some(e)) =>
            if ToOrdinal(s) >= ToOrdinal(e) then Fail(400, "Start Date must be before Exam Date")
            else Ok((goal, ToOrdinal(s), ToOrdinal(e)))
          case _ => Fail(400, "Invalid Date Format (YYYY-MM-DD)")
  }

  /** A request that passes validation names an owned goal, and its start is a day
      strictly before the exam day (compared as dates, field by field). */
  lemma ValidatedDates(goals: map<int, Goal>, userId: int, apiKey: Option<string>, req: StudyPlanRequest)
    requires ValidatePlanRequest(goals, userId, apiKey, req).Ok?
    ensures var v := ValidatePlanRequest(goals, userId, apiKey, req).value;
      v.0.studentId == userId
      && ParseYmd(req.startDate).Some? && ParseYmd(req.examDate).Some?
      && Before(ParseYmd(req.startDate).value, ParseYmd(req.examDate).value)
      && v.1 == ToOrdinal(ParseYmd(req.startDate).value) && v.1 < v.2
  {
    OrdinalOrder(ParseYmd(req.startDate).value, ParseYmd(req.examDate).value);
  }

  /** `generate_study_plan`. `reply` is the parsed Gemini reply, None when the call or
      the JSON decoding raises; `commitFails` stands for the database raising on commit. */
  method GenerateStudyPlan(db: TaskTable, goals: map<int, Goal>, userId: int, apiKey: Option<string>,
                           req: StudyPlanRequest, reply: Option<seq<AiItem>>, commitFails: bool)
    returns (r: Outcome<string>)
    requires db.Valid() && db.staged == []
    modifies db
    ensures db.Valid() && db.staged == []
    ensures ValidatePlanRequest(goals, userId, apiKey, req).Fail? ==>
              r == Fail(ValidatePlanRequest(goals, userId, apiKey, req).status,
                        ValidatePlanRequest(goals, userId, apiKey, req).detail)
              && db.rows == old(db.rows)
    ensures r.Ok? ==>
              var v := ValidatePlanRequest(goals, userId, apiKey, req).value;
              reply.Some? && Reconcile(v.0, v.1, v.2, reply.value).Some? && !commitFails
              && var ts := Reconcile(v.0, v.1, v.2, reply.value).value;
                 db.rows == old(db.rows) + Numbered(ts, old(db.nextId)) && r.value == SuccessMessage(|ts|)
    ensures r.Fail? ==> db.rows == old(db.rows)
    ensures ValidatePlanRequest(goals, userId, apiKey, req).Ok? && r.Fail? ==> r == Fail(500, "Plan Generation Failed")
    ensures ValidatePlanRequest(goals, userId, apiKey, req).Ok? && reply.Some? && !commitFails ==>
              var v := ValidatePlanRequest(goals, userId, apiKey, req).value;
              Reconcile(v.0, v.1, v.2, reply.value).Some? ==> r.Ok?
  {
    var checked := ValidatePlanRequest(goals, userId, apiKey, req);
    if checked.Fail? {
      return Fail(checked.status, checked.detail);
    }
    var (goal, start, exam) := checked.value;
    var preference := EffectivePreference(req.energyPreference);
    if reply.None? {
      db.Rollback();
      return Fail(500, "Plan Generation Failed");
    }
    var ok := StageItems(db, goal, start, exam, reply.value);
    if !ok || commitFails {
      db.Rollback();
      return Fail(500, "Plan Generation Failed");
    }
    var n := |db.staged|;
    db.Commit();
    r := Ok(SuccessMessage(n));
  }

  // ---------------------------------------------------------------------------
  // Completing a task

  /** The rows after task i is marked completed. */
  function MarkCompleted(rows: seq<AiTask>, i: nat): (r: seq<AiTask>)
    requires i < |rows|
    ensures |r| == |rows| && r[i].status == "completed"
    ensures forall k :: 0 <= k < |rows| && k != i ==> r[k] == rows[k]
    ensures r[i] == rows[i].(status := "completed")
  {
    rows[i := rows[i].(status := "completed")]
  }

  /** Completing is idempotent, and the same row is found again afterwards. */
  lemma CompleteIdempotent(rows: seq<AiTask>, id: int, student: int)
    requires FindOwned(rows, id, student).Some?
    ensures var i := FindOwned(rows, id, student).value;
      FindOwned(MarkCompleted(rows, i), id, student) == Some(i)
      && MarkCompleted(MarkCompleted(rows, i), i) == MarkCompleted(rows, i)
  {
    var i := FindOwned(rows, id, student).value;
    FindOwnedSameKeys(rows, MarkCompleted(rows, i), id, student);
  }

  lemma {:induction false} FindOwnedSameKeys(a: seq<AiTask>, b: seq<AiTask>, id: int, student: int)
    requires |a| == |b|
    requires forall k :: 0 <= k < |a| ==> a[k].taskId == b[k].taskId && a[k].studentId == b[k].studentId
    ensures FindOwned(a, id, student) == FindOwned(b, id, student)
    decreases |a|
  {
    if a != [] {
      FindOwnedSameKeys(a[1..], b[1..], id, student);
    }
  }

  /** `complete_ai_task` as written: ownership is checked against the caller's
      student-profile id. */
  method CompleteAiTask(db: TaskTable, user: User, taskId: int) returns (r: Outcome<string>)
    requires db.Valid()
    modifies db
    ensures db.Valid() && db.staged == old(db.staged)
    ensures user.studentProfileId.None? ==>
              r == Fail(400, "User must have a student profile") && db.rows == old(db.rows)
    ensures user.studentProfileId.Some? && FindOwned(old(db.rows), taskId, user.studentProfileId.value).None? ==>
              r == Fail(404, "Task not found") && db.rows == old(db.rows)
    ensures user.studentProfileId.Some? && FindOwned(old(db.rows), taskId, user.studentProfileId.value).Some? ==>
              r == Ok("completed")
              && db.rows == MarkCompleted(old(db.rows), FindOwned(old(db.rows), taskId, user.studentProfileId.value).value)
  {
    if user.studentProfileId.None? {
      return Fail(400, "User must have a student profile");
    }
    var found := FindOwned(db.rows, taskId, user.studentProfileId.value);
    if found.None? {
      return Fail(404, "Task not found");
    }
    db.SetStatus(found.value, "completed");
    r := Ok("completed");
  }

  /** `complete_ai_task` with ownership checked against the user id, the id that
      both generators store in `student_id`. */
  method CompleteOwnAiTask(db: TaskTable, user: User, taskId: int) returns (r: Outcome<string>)
    requires db.Valid()
    modifies db
    ensures db.Valid() && db.staged == old(db.staged)
    ensures user.studentProfileId.None? ==>
              r == Fail(400, "User must have a student profile") && db.rows == old(db.rows)
    ensures user.studentProfileId.Some? && FindOwned(old(db.rows), taskId, user.id).None? ==>
              r == Fail(404, "Task not found") && db.rows == old(db.rows)
    ensures user.studentProfileId.Some? && FindOwned(old(db.rows), taskId, user.id).Some? ==>
              r == Ok("completed")
              && db.rows == MarkCompleted(old(db.rows), FindOwned(old(db.rows), taskId, user.id).value)
  {
    if user.studentProfileId.None? {
      return Fail(400, "User must have a student profile");
    }
    var found := FindOwned(db.rows, taskId, user.id);
    if found.None? {
      return Fail(404, "Task not found");
    }
    db.SetStatus(found.value, "completed");
    r := Ok("completed");
  }

  /** A row stored for a goal of user u carries u's user id; when u's student profile
      has a different id, the check as written cannot find it: the owner gets 404. */
  lemma OwnerLockedOut(rows: seq<AiTask>, i: nat, u: User)
    requires i < |rows| && rows[i].studentId == u.id
    requires u.studentProfileId.Some? && u.studentProfileId.value != u.id
    requires forall k :: 0 <= k < |rows| && k != i ==> rows[k].taskId != rows[i].taskId
    ensures FindOwned(rows, rows[i].taskId, u.studentProfileId.value).None?
    ensures FindOwned(rows, rows[i].taskId, u.id) == Some(i)
  {
    FindOwnedUnique(rows, i, rows[i].taskId, u.id);
  }

  lemma {:induction false} FindOwnedUnique(rows: seq<AiTask>, i: nat, id: int, student: int)
    requires i < |rows| && rows[i].taskId == id && rows[i].studentId == student
    requires forall k :: 0 <= k < |rows| && k != i ==> rows[k].taskId != id
    ensures FindOwned(rows, id, student) == Some(i)
    decreases |rows|
  {
    if i > 0 {
      FindOwnedUnique(rows[1..], i - 1, id, student);
    }
  }

  /** With the user-id check, every task the owner's plan produced can be completed
      by that owner: rows committed by GenerateStudyPlan for user u are found. */
  lemma OwnerCanComplete(rows: seq<AiTask>, next: int, i: nat, u: User)
    requires IdsBelow(rows, next) && i < |rows| && rows[i].studentId == u.id
    ensures FindOwned(rows, rows[i].taskId, u.id) == Some(i)
  {
    FindOwnedUnique(rows, i, rows[i].taskId, u.id);
  }
}
