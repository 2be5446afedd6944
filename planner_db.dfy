/** The planner's tables: `study_goals`, read by the generators, and
    `create_task_ai` together with the part of a SQLAlchemy session the planner
    endpoints use: rows are staged with `db.add`, then `db.commit()` writes them
    all and assigns their auto-increment ids, or `db.rollback()` discards them all. */
module PlannerDb {
  import opened Wrappers

  /** A `study_goals` row: the goal and the user who owns it. */
  datatype Goal = Goal(goalId: int, studentId: int, title: string)

  /** The goal with that id, if the caller owns it: the 404 check of both generators. */
  function OwnedGoal(goals: map<int, Goal>, goalId: int, userId: int): (r: Option<Goal>)
    ensures r.Some? ==> r.value.studentId == userId
  {
    if goalId in goals && goals[goalId].studentId == userId then Some(goals[goalId]) else None
  }

  /** A row of `create_task_ai`. Columns an endpoint leaves unset are None.
      `taskTime` is in minutes (see the Calendar module), `taskDate` an ordinal. */
  datatype AiTask = AiTask(
    taskId: int,
    goalId: int,
    studentId: int,
    title: string,
    taskTime: int,
    taskDate: Option<int>,
    durationMinutes: Option<int>,
    sequenceNo: Option<int>,
    status: string)

  /** Staged rows with the ids the database gives them on commit. */
  function Numbered(ts: seq<AiTask>, first: int): (r: seq<AiTask>)
    ensures |r| == |ts|
    ensures forall k :: 0 <= k < |ts| ==> r[k] == ts[k].(taskId := first + k)
  {
    seq(|ts|, k requires 0 <= k < |ts| => ts[k].(taskId := first + k))
  }

  /** Ids are handed out in increasing order, so they are unique. */
  predicate IdsBelow(rows: seq<AiTask>, next: int) {
    (forall i, j :: 0 <= i < j < |rows| ==> rows[i].taskId < rows[j].taskId)
    && (forall i :: 0 <= i < |rows| ==> 1 <= rows[i].taskId < next)
  }

  /** Index of the row `db.query(CreateTaskAI).filter(task_id == id, student_id == student).first()` returns. */
  function FindOwned(rows: seq<AiTask>, id: int, student: int): (r: Option<nat>)
    ensures r.Some? ==> r.value < |rows| && rows[r.value].taskId == id && rows[r.value].studentId == student
    ensures r.None? ==> forall i :: 0 <= i < |rows| ==> !(rows[i].taskId == id && rows[i].studentId == student)
    decreases |rows|
  {
    if rows == [] then None
    else if rows[0].taskId == id && rows[0].studentId == student then Some(0)
    else match FindOwned(rows[1..], id, student)
      case None => None
      case Some(k) => Some(k + 1)
  }

  class TaskTable {
    var rows: seq<AiTask>
    var staged: seq<AiTask>
    var nextId: int

    ghost predicate Valid()
      reads this
    {
      nextId >= 1 && IdsBelow(rows, nextId)
    }

    constructor ()
      ensures Valid() && rows == [] && staged == [] && nextId == 1
    {
      rows := [];
      staged := [];
      nextId := 1;
    }

    /** `db.add(task)`: staged, not yet visible. */
    method Add(t: AiTask)
      modifies this
      ensures staged == old(staged) + [t]
      ensures rows == old(rows) && nextId == old(nextId)
    {
      staged := staged + [t];
    }

    /** `db.commit()`: every staged row is written, with fresh ids. */
    method Commit()
      requires Valid()
      modifies this
      ensures Valid()
      ensures rows == old(rows) + Numbered(old(staged), old(nextId))
      ensures staged == [] && nextId == old(nextId) + |old(staged)|
    {
      rows := rows + Numbered(staged, nextId);
      nextId := nextId + |staged|;
      staged := [];
    }

    /** `db.rollback()`: every staged row is discarded. */
    method Rollback()
      modifies this
      ensures rows == old(rows) && staged == [] && nextId == old(nextId)
    {
      staged := [];
    }

    /** Assigns `task_status` of one row and commits. */
    method SetStatus(i: nat, status: string)
      requires Valid() && i < |rows|
      modifies this
      ensures Valid()
      ensures rows == old(rows)[i := old(rows)[i].(status := status)]
      ensures staged == old(staged) && nextId == old(nextId)
    {
      rows := rows[i := rows[i].(status := status)];
    }
  }
}
