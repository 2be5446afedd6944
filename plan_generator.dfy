/** The deterministic study-plan generator behind `POST /generate-tasks`: a
    comma-separated topic string is spread over every day of an inclusive date
    range, one task per day, and the whole batch is committed or rolled back. */
module PlanGenerator {
  import opened Wrappers
  import opened Text
  import opened Calendar
  import opened PlannerDb
  import opened Arith

  /** The request body. Dates are ordinals, as pydantic hands over `date` values. */
  datatype PlanRequest = PlanRequest(
    goalId: int, topics: string, startDate: int, endDate: int, hoursPerDay: int)

  const FallbackTopic: string := "General Study"
  const StudyHour: int := 9

  // ---------------------------------------------------------------------------
  // Topics

  /** The stripped pieces that are not blank, in order. */
  function KeepStripped(pieces: seq<string>): (r: seq<string>)
    ensures |r| <= |pieces|
    ensures forall k :: 0 <= k < |r| ==> r[k] != ""
    decreases |pieces|
  {
    if pieces == [] then []
    else
      var t := Strip(pieces[0]);
      (if t != "" then [t] else []) + KeepStripped(pieces[1..])
  }

  /** Stripping adds no comma: pieces of a split on ',' stay comma-free. */
  lemma {:induction false} KeepStrippedNoComma(pieces: seq<string>)
    requires forall k :: 0 <= k < |pieces| ==> ',' !in pieces[k]
    ensures forall k :: 0 <= k < |KeepStripped(pieces)| ==> ',' !in KeepStripped(pieces)[k]
    decreases |pieces|
  {
    if pieces != [] {
      KeepStrippedNoComma(pieces[1..]);
      TrimKeepsOut(pieces[0], IsPySpace, ',');
    }
  }

  /** `[t.strip() for t in topics.split(',') if t.strip()]`, or the fallback topic. */
  function ParseTopics(topics: string): (r: seq<string>)
    ensures |r| >= 1
  {
    OrFallback(KeepStripped(Split(topics, ',')))
  }

  /** `... or ["General Study"]`: an empty topic list becomes the fallback topic. */
  function OrFallback(kept: seq<string>): (r: seq<string>)
    ensures |r| >= 1
  {
    if kept == [] then [FallbackTopic] else kept
  }

  /** The fallback keeps a list of clean topics clean. */
  lemma OrFallbackClean(kept: seq<string>)
    requires forall k :: 0 <= k < |kept| ==> kept[k] != "" && ',' !in kept[k]
    ensures forall k :: 0 <= k < |OrFallback(kept)| ==>
              OrFallback(kept)[k] != "" && ',' !in OrFallback(kept)[k]
  {
    if kept == [] {
      assert FallbackTopic[0] == 'G';
      assert forall k :: 0 <= k < |FallbackTopic| ==> FallbackTopic[k] != ',';
    }
  }

  /** Every parsed topic is non-blank and holds no comma. */
  lemma ParseTopicsClean(topics: string)
    ensures forall k :: 0 <= k < |ParseTopics(topics)| ==>
              ParseTopics(topics)[k] != "" && ',' !in ParseTopics(topics)[k]
  {
    var pieces := Split(topics, ',');
    KeepStrippedNoComma(pieces);
    OrFallbackClean(KeepStripped(pieces));
  }

  /** Stripping and dropping blanks piece by piece keeps the pieces' order. */
  lemma {:induction false} KeepStrippedAppend(a: seq<string>, b: seq<string>)
    ensures KeepStripped(a + b) == KeepStripped(a) + KeepStripped(b)
    decreases |a|
  {
    if a == [] {
      assert a + b == b;
    } else {
      assert (a + b)[1..] == a[1..] + b;
      KeepStrippedAppend(a[1..], b);
    }
  }

  lemma {:induction false} KeepStrippedClean(ts: seq<string>)
    requires forall k :: 0 <= k < |ts| ==> ts[k] != "" && Strip(ts[k]) == ts[k]
    ensures KeepStripped(ts) == ts
    decreases |ts|
  {
    if ts != [] {
      KeepStrippedClean(ts[1..]);
    }
  }

  /** A list of clean topics joined with commas parses back to the same list. */
  lemma TopicsRoundTrip(ts: seq<string>)
    requires |ts| >= 1
    requires forall k :: 0 <= k < |ts| ==> ts[k] != "" && ',' !in ts[k] && Strip(ts[k]) == ts[k]
    ensures ParseTopics(Join(ts, ",")) == ts
  {
    SplitJoin(ts, ',');
    assert [','] == ",";
    KeepStrippedClean(ts);
  }

  /** A string with no non-blank piece falls back to the single default topic. */
  lemma BlankTopics(topics: string)
    requires forall k :: 0 <= k < |topics| ==> topics[k] == ',' || IsPySpace(topics[k])
    ensures ParseTopics(topics) == [FallbackTopic]
  {
    var pieces := Split(topics, ',');
    JoinSplit(topics, ',');
    BlankPieces(pieces);
  }

  lemma {:induction false} BlankPieces(pieces: seq<string>)
    requires forall k :: 0 <= k < |pieces| ==> ',' !in pieces[k]
    requires forall k :: 0 <= k < |Join(pieces, ",")| ==>
               Join(pieces, ",")[k] == ',' || IsPySpace(Join(pieces, ",")[k])
    ensures KeepStripped(pieces) == []
    decreases |pieces|
  {
    if pieces != [] {
      var s := Join(pieces, ",");
      assert s[..|pieces[0]|] == pieces[0];
      assert AllSpace(pieces[0], IsPySpace) by {
        forall k | 0 <= k < |pieces[0]|
          ensures IsPySpace(pieces[0][k])
        {
          assert s[k] == pieces[0][k];
          assert pieces[0][k] != ',';
        }
      }
      TrimEmptyIff(pieces[0], IsPySpace);
      if |pieces| > 1 {
        var rest := Join(pieces[1..], ",");
        assert s == pieces[0] + "," + rest;
        assert forall k :: 0 <= k < |rest| ==> rest[k] == s[|pieces[0]| + 1 + k];
      }
      BlankPieces(pieces[1..]);
    }
  }

  // ---------------------------------------------------------------------------
  // Distributing topics over days

  /** Python's treatment of a slice bound against a sequence of length n. */
  function ClampIndex(i: int, n: nat): (r: nat)
    ensures r <= n
    ensures 0 <= i <= n ==> r == i
  {
    if i < 0 then (if i + n < 0 then 0 else i + n) else if i > n then n else i
  }

  /** Python's `s[lo:hi]`. */
  function PySlice<T>(s: seq<T>, lo: int, hi: int): (r: seq<T>)
    ensures 0 <= lo <= hi <= |s| ==> r == s[lo..hi]
  {
    var a, b := ClampIndex(lo, |s|), ClampIndex(hi, |s|);
    if a <= b then s[a..b] else []
  }

  /** Topics of day i out of `days`: a slice of the list when there are more
      topics than days, otherwise one topic, cycling through the list. */
  function DayTopics(topics: seq<string>, days: int, i: int): seq<string>
    requires |topics| >= 1 && days >= 1 && i >= 0
  {
    var t := |topics|;
    if t > days then
      var slice := PySlice(topics, i * t / days, (i + 1) * t / days);
      if slice == [] then [topics[i % t]] else slice
    else [topics[i % t]]
  }

  /** Where day k's slice starts when t topics are compressed into `days` days. */
  function Boundary(k: int, t: int, days: int): int
    requires days >= 1
  {
    k * t / days
  }

  /** The boundaries increase strictly from 0 to t when t > days. */
  lemma {:induction false} BoundaryStep(k: int, t: int, days: int)
    requires 1 <= days < t && 0 <= k < days
    ensures 0 <= Boundary(k, t, days) < Boundary(k + 1, t, days) <= t
    ensures Boundary(0, t, days) == 0 && Boundary(days, t, days) == t
  {
    MulStep(k, t, days);
    var a, b, c := k * t, (k + 1) * t, days * t;
    DivMonotone(0, a, days);
    DivPlusDivisor(a, days);
    DivMonotone(a + days, b, days);
    DivMonotone(b, c, days);
    MulDivCancel(days, t);
  }

  /** With more topics than days, day i gets the non-empty slice between its boundaries,
      so the single-topic fallback is never used. */
  lemma CompressedDay(topics: seq<string>, days: int, i: int)
    requires 1 <= days < |topics| && 0 <= i < days
    ensures 0 <= Boundary(i, |topics|, days) < Boundary(i + 1, |topics|, days) <= |topics|
    ensures DayTopics(topics, days, i)
            == topics[Boundary(i, |topics|, days)..Boundary(i + 1, |topics|, days)]
  {
    BoundaryStep(i, |topics|, days);
  }

  /** With no more topics than days, day i studies topic i mod T. */
  lemma CyclingDay(topics: seq<string>, days: int, i: int)
    requires 1 <= |topics| <= days && 0 <= i
    ensures DayTopics(topics, days, i) == [topics[i % |topics|]]
    ensures DayTopics(topics, days, i + |topics|) == DayTopics(topics, days, i)
  {
    DivPlusDivisor(i, |topics|);
  }

  function Concat(days: seq<seq<string>>): seq<string>
    decreases |days|
  {
    if days == [] then [] else Concat(days[..|days| - 1]) + days[|days| - 1]
  }

  function Schedule(topics: seq<string>, days: int): (r: seq<seq<string>>)
    requires |topics| >= 1 && days >= 1
    ensures |r| == days
  {
    seq(days, i requires 0 <= i < days => DayTopics(topics, days, i))
  }

  lemma {:induction false} CompressedPrefix(topics: seq<string>, days: int, n: int)
    requires 1 <= days < |topics| && 0 <= n <= days
    ensures 0 <= Boundary(n, |topics|, days) <= |topics|
    ensures Concat(Schedule(topics, days)[..n]) == topics[..Boundary(n, |topics|, days)]
    decreases n
  {
    var t := |topics|;
    if n == 0 {
      BoundaryStep(0, t, days);
      assert Schedule(topics, days)[..0] == [];
    } else {
      CompressedPrefix(topics, days, n - 1);
      CompressedDay(topics, days, n - 1);
      var s := Schedule(topics, days);
      assert s[..n][..n - 1] == s[..n - 1];
      assert topics[..Boundary(n - 1, t, days)]
             + topics[Boundary(n - 1, t, days)..Boundary(n, t, days)]
             == topics[..Boundary(n, t, days)];
    }
  }

  /** With more topics than days, the days' topics laid end to end are exactly the
      topic list: every topic is studied on exactly one day, in order. */
  lemma CompressedCoversAll(topics: seq<string>, days: int)
    requires 1 <= days < |topics|
    ensures Concat(Schedule(topics, days)) == topics
  {
    CompressedPrefix(topics, days, days);
    BoundaryStep(0, |topics|, days);
    assert Schedule(topics, days)[..days] == Schedule(topics, days);
  }

  /** Every day has at least one topic. */
  lemma DayNonEmpty(topics: seq<string>, days: int, i: int)
    requires |topics| >= 1 && days >= 1 && 0 <= i < days
    ensures |DayTopics(topics, days, i)| >= 1
  {
    if |topics| > days {
      CompressedDay(topics, days, i);
    }
  }

  // ---------------------------------------------------------------------------
  // The plan

  function TitleFor(dayTopics: seq<string>): string {
    "Study " + Join(dayTopics, " & ")
  }

  function DayCount(req: PlanRequest): int {
    req.endDate - req.startDate + 1
  }

  /** The task of day i (not yet numbered by the database). */
  function PlanTask(goal: Goal, req: PlanRequest, topics: seq<string>, i: int): AiTask
    requires |topics| >= 1 && DayCount(req) >= 1 && i >= 0
  {
    var date := req.startDate + i;
    AiTask(0, goal.goalId, goal.studentId,
           TitleFor(DayTopics(topics, DayCount(req), i)),
           date * MinutesPerDay + StudyHour * 60,
           Some(date), Some(req.hoursPerDay * 60), Some(i + 1), "active")
  }

  /** The tasks generated for a valid request, in day order. */
  function Plan(goal: Goal, req: PlanRequest): (r: seq<AiTask>)
    requires req.startDate < req.endDate
  {
    var topics := ParseTopics(req.topics);
    seq(DayCount(req), i requires 0 <= i < DayCount(req) => PlanTask(goal, req, topics, i))
  }

  /** One task per day of the inclusive range: the first on the start date, the last
      on the end date, dates consecutive and sequence numbers 1..n. */
  lemma PlanCoversRange(goal: Goal, req: PlanRequest)
    requires req.startDate < req.endDate
    ensures |Plan(goal, req)| == req.endDate - req.startDate + 1
    ensures forall i :: 0 <= i < |Plan(goal, req)| ==>
              Plan(goal, req)[i].taskDate == Some(req.startDate + i)
              && Plan(goal, req)[i].sequenceNo == Some(i + 1)
    ensures Plan(goal, req)[|Plan(goal, req)| - 1].taskDate == Some(req.endDate)
  {
    var p := Plan(goal, req);
    forall i | 0 <= i < |p|
      ensures p[i].taskDate == Some(req.startDate + i) && p[i].sequenceNo == Some(i + 1)
    {
      PlanAt(goal, req, i);
    }
    PlanAt(goal, req, |p| - 1);
  }

  lemma PlanAt(goal: Goal, req: PlanRequest, i: int)
    requires req.startDate < req.endDate && 0 <= i < DayCount(req)
    ensures |Plan(goal, req)| == DayCount(req)
    ensures Plan(goal, req)[i] == PlanTask(goal, req, ParseTopics(req.topics), i)
  {
  }

  /** The first i + 1 tasks are the first i followed by the task of day i. */
  lemma PlanPrefix(goal: Goal, req: PlanRequest, i: int)
    requires req.startDate < req.endDate && 0 <= i < DayCount(req)
    ensures |Plan(goal, req)| == DayCount(req)
    ensures Plan(goal, req)[..i + 1] == Plan(goal, req)[..i] + [PlanTask(goal, req, ParseTopics(req.topics), i)]
  {
    PlanAt(goal, req, i);
    var p := Plan(goal, req);
    assert p[..i + 1] == p[..i] + [p[i]];
  }

  /** Every task starts at 09:00 on its own date, lasts the requested hours and
      belongs to the goal and its owner. */
  lemma PlanTaskShape(goal: Goal, req: PlanRequest, i: int)
    requires req.startDate < req.endDate && 0 <= i < |Plan(goal, req)|
    ensures Plan(goal, req)[i].taskDate == Some(DayOf(Plan(goal, req)[i].taskTime))
    ensures HourOf(Plan(goal, req)[i].taskTime) == 9 && Plan(goal, req)[i].taskTime % 60 == 0
    ensures Plan(goal, req)[i].durationMinutes == Some(req.hoursPerDay * 60)
    ensures Plan(goal, req)[i].goalId == goal.goalId && Plan(goal, req)[i].studentId == goal.studentId
    ensures Plan(goal, req)[i].status == "active"
  {
    PlanAt(goal, req, i);
    var date := req.startDate + i;
    PlanTaskFields(goal, req, ParseTopics(req.topics), i);
    NineOClock(date, Plan(goal, req)[i].taskTime);
  }

  lemma PlanTaskFields(goal: Goal, req: PlanRequest, topics: seq<string>, i: int)
    requires |topics| >= 1 && DayCount(req) >= 1 && i >= 0
    ensures PlanTask(goal, req, topics, i).taskTime == (req.startDate + i) * MinutesPerDay + StudyHour * 60
    ensures PlanTask(goal, req, topics, i).taskDate == Some(req.startDate + i)
    ensures PlanTask(goal, req, topics, i).durationMinutes == Some(req.hoursPerDay * 60)
    ensures PlanTask(goal, req, topics, i).goalId == goal.goalId
    ensures PlanTask(goal, req, topics, i).studentId == goal.studentId
    ensures PlanTask(goal, req, topics, i).status == "active"
  {
  }

  /** 09:00 on a date falls on that date, in hour 9, on a whole hour. */
  lemma NineOClock(date: int, t: int)
    requires t == date * MinutesPerDay + StudyHour * 60
    ensures DayOf(t) == date && HourOf(t) == StudyHour && t % 60 == 0
  {
    DivModUnique(t, MinutesPerDay, date, StudyHour * 60);
    DivModUnique(t, 60, date * 24 + StudyHour, 0);
  }

  /** Each title is "Study " followed by that day's non-empty topics joined with " & ". */
  lemma PlanTitles(goal: Goal, req: PlanRequest, i: int)
    requires req.startDate < req.endDate && 0 <= i < |Plan(goal, req)|
    ensures var day := Schedule(ParseTopics(req.topics), DayCount(req))[i];
      |day| >= 1 && Plan(goal, req)[i].title == "Study " + Join(day, " & ")
  {
    DayNonEmpty(ParseTopics(req.topics), DayCount(req), i);
  }

  // ---------------------------------------------------------------------------
  // The endpoint

  /** `generate_tasks`. `commitFails` stands for the database raising on commit. */
  method GenerateTasks(db: TaskTable, goals: map<int, Goal>, userId: int, req: PlanRequest,
                       commitFails: bool)
    returns (r: Outcome<seq<AiTask>>)
    requires db.Valid() && db.staged == []
    modifies db
    ensures db.Valid() && db.staged == []
    ensures OwnedGoal(goals, req.goalId, userId).None? ==>
              r == Fail(404, "Study Goal not found") && db.rows == old(db.rows)
    ensures OwnedGoal(goals, req.goalId, userId).Some? && req.startDate >= req.endDate ==>
              r == Fail(400, "Start Date must be before End Date") && db.rows == old(db.rows)
    ensures OwnedGoal(goals, req.goalId, userId).Some? && req.startDate < req.endDate && commitFails ==>
              r == Fail(500, "Task Generation Failed") && db.rows == old(db.rows)
    ensures OwnedGoal(goals, req.goalId, userId).Some? && req.startDate < req.endDate && !commitFails ==>
              r == Ok(Numbered(Plan(OwnedGoal(goals, req.goalId, userId).value, req), old(db.nextId)))
              && db.rows == old(db.rows) + r.value
  {
    var found := OwnedGoal(goals, req.goalId, userId);
    if found.None? {
      return Fail(404, "Study Goal not found");
    }
    var goal := found.value;
    if req.startDate >= req.endDate {
      return Fail(400, "Start Date must be before End Date");
    }
    var topics := ParseTopics(req.topics);
    var totalDays := req.endDate - req.startDate + 1;
    var created: seq<AiTask> := [];
    for i := 0 to totalDays
      invariant created == Plan(goal, req)[..i]
      invariant db.staged == created && db.rows == old(db.rows) && db.nextId == old(db.nextId)
      invariant db.Valid()
    {
      var task := PlanTask(goal, req, topics, i);
      PlanPrefix(goal, req, i);
      db.Add(task);
      created := created + [task];
    }
    if commitFails {
      db.Rollback();
      return Fail(500, "Task Generation Failed");
    }
    assert created == Plan(goal, req) by {
      assert Plan(goal, req)[..totalDays] == Plan(goal, req);
    }
    var first := db.nextId;
    db.Commit();
    r := Ok(Numbered(created, first));
  }
}
