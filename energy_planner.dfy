/** Energy-aware rescheduling of study tasks. Each preference has a peak and a low
    window of hours. Tasks are either locked, which keeps their start time, or
    floating. Floating tasks are ordered by priority and difficulty and packed one
    after another from the preference's starting hour. Each one steps past locked
    tasks in quarter hours. Every task is then tagged with the window its start hour
    falls in, and the whole list is sorted chronologically. Times are minutes (see
    the Calendar module). */
module EnergyPlanner {
  import opened Wrappers
  import opened Text
  import opened Calendar
  import opened Sorting

  datatype Energy = Peak | Low

  datatype TimeSlot = TimeSlot(start: int, end: int, kind: Energy)

  datatype Difficulty = HighFocus | LowFocus | NeutralFocus

  /** The fields of a task the scheduler copies unchanged (`...task`). */
  datatype TaskInfo = TaskInfo(
    id: int,
    title: string,
    taskType: string,
    durationMinutes: int,
    status: string,
    priority: Option<string>,
    difficultyFeedback: Option<string>,
    isLocked: bool)

  /** A task: its unchanged fields, and the two fields the scheduler rewrites. */
  datatype StudyTask = StudyTask(info: TaskInfo, startTime: int, energyTag: Option<Energy>)

  function Info(t: StudyTask): TaskInfo {
    t.info
  }

  // ---------------------------------------------------------------------------
  // Windows and difficulty

  /** `getEnergySlots`: the peak window first, then the low window. */
  function EnergySlots(preference: string): (r: seq<TimeSlot>)
    ensures |r| == 0 || |r| == 2
    ensures |r| == 2 <==> preference == "morning" || preference == "afternoon" || preference == "night"
  {
    match preference
      case "morning" => [TimeSlot(6, 10, Peak), TimeSlot(16, 21, Low)]
      case "afternoon" => [TimeSlot(12, 16, Peak), TimeSlot(8, 11, Low)]
      case "night" => [TimeSlot(19, 23, Peak), TimeSlot(13, 17, Low)]
      case _ => []
  }

  /** `preference && preference !== 'none'`: set, not empty and not "none". */
  predicate Active(preference: Option<string>) {
    preference.Some? && preference.value != "" && preference.value != "none"
  }

  function ActiveSlots(preference: Option<string>): seq<TimeSlot> {
    if Active(preference) then EnergySlots(preference.value) else []
  }

  /** The kind of the first window holding the hour, if any. */
  function TagFor(slots: seq<TimeSlot>, hour: int): (r: Option<Energy>)
    ensures r.Some? <==> exists k :: 0 <= k < |slots| && slots[k].start <= hour < slots[k].end
    decreases |slots|
  {
    if slots == [] then None
    else if slots[0].start <= hour < slots[0].end then Some(slots[0].kind)
    else
      var r := TagFor(slots[1..], hour);
      assert forall k :: 1 <= k < |slots| ==> slots[k] == slots[1..][k - 1];
      r
  }

  /** The windows of each preference, hour by hour. */
  lemma TagWindows(preference: string, hour: int)
    ensures preference == "morning" ==>
              (TagFor(EnergySlots(preference), hour) == Some(Peak) <==> 6 <= hour < 10)
              && (TagFor(EnergySlots(preference), hour) == Some(Low) <==> 16 <= hour < 21)
    ensures preference == "afternoon" ==>
              (TagFor(EnergySlots(preference), hour) == Some(Peak) <==> 12 <= hour < 16)
              && (TagFor(EnergySlots(preference), hour) == Some(Low) <==> 8 <= hour < 11)
    ensures preference == "night" ==>
              (TagFor(EnergySlots(preference), hour) == Some(Peak) <==> 19 <= hour < 23)
              && (TagFor(EnergySlots(preference), hour) == Some(Low) <==> 13 <= hour < 17)
    ensures preference != "morning" && preference != "afternoon" && preference != "night" ==>
              TagFor(EnergySlots(preference), hour) == None
  {
  }

  /** The high-focus keywords: new concepts, numericals, problem solving, assignments. */
  predicate HighFocusWords(lowerType: string, lowerTitle: string) {
    Contains(lowerType, "new concept") || Contains(lowerType, "problem solving")
    || Contains(lowerType, "numerical") || Contains(lowerType, "hard")
    || Contains(lowerType, "assignment") || Contains(lowerType, "project")
    || Contains(lowerTitle, "difficult") || Contains(lowerTitle, "chapter")
  }

  /** The low-focus keywords: revision, review, notes, video. */
  predicate LowFocusWords(lowerType: string, lowerTitle: string) {
    Contains(lowerType, "revision") || Contains(lowerType, "review")
    || Contains(lowerType, "notes") || Contains(lowerType, "easy")
    || Contains(lowerType, "video") || Contains(lowerTitle, "quick") || Contains(lowerTitle, "intro")
  }

  /** `classifyTaskDifficulty`: feedback first, then high-focus, then low-focus keywords. */
  function Classify(taskType: string, title: string, feedback: Option<string>): (r: Difficulty)
    ensures feedback == Some("hard") ==> r == HighFocus
    ensures feedback == Some("easy") ==> r == LowFocus
    ensures feedback != Some("hard") && feedback != Some("easy") ==>
              (r == HighFocus <==> HighFocusWords(Lower(taskType), Lower(title)))
              && (r == LowFocus <==> !HighFocusWords(Lower(taskType), Lower(title))
                                     && LowFocusWords(Lower(taskType), Lower(title)))
  {
    if feedback == Some("hard") then HighFocus
    else if feedback == Some("easy") then LowFocus
    else if HighFocusWords(Lower(taskType), Lower(title)) then HighFocus
    else if LowFocusWords(Lower(taskType), Lower(title)) then LowFocus
    else NeutralFocus
  }

  /** Matching ignores case, and a high-focus word in the title outranks a
      low-focus task type. */
  lemma ChapterRevisionIsHigh()
    ensures Classify("Revision", "Chapter 5", None) == HighFocus
  {
    var title := Lower("Chapter 5");
    assert title[..7] == "chapter";
    assert IsPrefix("chapter", title);
  }

  /** Feedback overrides every keyword: "easy" feedback gives low focus and "hard"
      feedback high focus, whatever the task's type and title say. */
  lemma EasyFeedbackWins(taskType: string, title: string)
    ensures Classify(taskType, title, Some("easy")) == LowFocus
    ensures Classify(taskType, title, Some("hard")) == HighFocus
    ensures HighFocusWords(Lower(taskType), Lower(title)) ==> Classify(taskType, title, Some("easy")) != HighFocus
  {
  }

  // ---------------------------------------------------------------------------
  // Ordering keys

  /** `getPrioVal`: high 3, low 1, anything else 2. */
  function PriorityValue(p: Option<string>): (v: int)
    ensures 1 <= v <= 3
  {
    if p == Some("high") then 3 else if p == Some("low") then 1 else 2
  }

  function DifficultyScore(d: Difficulty): (v: int)
    ensures 0 <= v <= 2
  {
    match d
      case HighFocus => 2
      case NeutralFocus => 1
      case LowFocus => 0
  }

  /** The floating-task comparator as a key: higher priority first, then harder first. */
  function PriorityKey(t: StudyTask): Rank {
    var i := t.info;
    Rank(-PriorityValue(i.priority), -DifficultyScore(Classify(i.taskType, i.title, i.difficultyFeedback)))
  }

  /** The chronological comparator as a key. */
  function StartKey(t: StudyTask): Rank {
    Rank(t.startTime, 0)
  }

  // ---------------------------------------------------------------------------
  // Locked and floating tasks

  function Locked(tasks: seq<StudyTask>): (r: seq<StudyTask>)
    ensures forall t :: t in r <==> t in tasks && t.info.isLocked
    decreases |tasks|
  {
    if tasks == [] then []
    else
      assert tasks == [tasks[0]] + tasks[1..];
      (if tasks[0].info.isLocked then [tasks[0]] else []) + Locked(tasks[1..])
  }

  function Floating(tasks: seq<StudyTask>): (r: seq<StudyTask>)
    ensures forall t :: t in r <==> t in tasks && !t.info.isLocked
    decreases |tasks|
  {
    if tasks == [] then []
    else
      assert tasks == [tasks[0]] + tasks[1..];
      (if tasks[0].info.isLocked then [] else [tasks[0]]) + Floating(tasks[1..])
  }

  lemma {:induction false} SplitPermutes(tasks: seq<StudyTask>)
    ensures multiset(Locked(tasks)) + multiset(Floating(tasks)) == multiset(tasks)
    decreases |tasks|
  {
    if tasks != [] {
      SplitPermutes(tasks[1..]);
      assert tasks == [tasks[0]] + tasks[1..];
    }
  }

  /** `isOverlapping`: the interval [start, start + duration) meets a locked task. */
  predicate Overlaps(locked: seq<StudyTask>, start: int, duration: int) {
    exists k :: 0 <= k < |locked|
      && start < locked[k].startTime + locked[k].info.durationMinutes
      && start + duration > locked[k].startTime
  }

  /** `findNextSlot` after `attempts` steps: quarter-hour steps while the candidate
      overlaps, at most 100 of them. */
  function SlotFrom(locked: seq<StudyTask>, candidate: int, duration: int, attempts: nat): int
    requires attempts <= 100
    decreases 100 - attempts
  {
    if Overlaps(locked, candidate, duration) && attempts < 100
    then SlotFrom(locked, candidate + 15, duration, attempts + 1)
    else candidate
  }

  /** The slot is the first free quarter hour at or after the start, unless all 100
      steps overlapped: then it is 1500 minutes later. */
  lemma {:induction false} SlotFromSpec(locked: seq<StudyTask>, t: int, duration: int, attempts: nat)
    requires attempts <= 100
    ensures var r := SlotFrom(locked, t, duration, attempts);
            t <= r <= t + 15 * (100 - attempts) && (r - t) % 15 == 0
            && (forall j :: 0 <= j && t + 15 * j < r ==> Overlaps(locked, t + 15 * j, duration))
            && (!Overlaps(locked, r, duration) || r == t + 15 * (100 - attempts))
    decreases 100 - attempts
  {
    if Overlaps(locked, t, duration) && attempts < 100 {
      SlotFromSpec(locked, t + 15, duration, attempts + 1);
      var r := SlotFrom(locked, t, duration, attempts);
      forall j | 0 <= j && t + 15 * j < r
        ensures Overlaps(locked, t + 15 * j, duration)
      {
        if j > 0 {
          assert t + 15 * j == (t + 15) + 15 * (j - 1);
        }
      }
    }
  }

  /** The floating tasks, each placed at its slot and tagged; `current` is the end
      of the previous floating task. */
  function Pack(locked: seq<StudyTask>, fs: seq<StudyTask>, current: int, slots: seq<TimeSlot>)
    : (r: seq<StudyTask>)
    ensures |r| == |fs|
    decreases |fs|
  {
    if fs == [] then []
    else
      var s := SlotFrom(locked, current, fs[0].info.durationMinutes, 0);
      [StudyTask(fs[0].info, s, TagFor(slots, HourOf(s)))]
      + Pack(locked, fs[1..], s + fs[0].info.durationMinutes, slots)
  }

  /** Packing keeps each floating task's fields and tags it by its new start hour. */
  lemma {:induction false} PackEntry(locked: seq<StudyTask>, fs: seq<StudyTask>, current: int, slots: seq<TimeSlot>, k: nat)
    requires k < |fs|
    ensures Pack(locked, fs, current, slots)[k].info == fs[k].info
    ensures Pack(locked, fs, current, slots)[k].energyTag
            == TagFor(slots, HourOf(Pack(locked, fs, current, slots)[k].startTime))
    decreases |fs|
  {
    if k > 0 {
      var d := fs[0].info.durationMinutes;
      var s := SlotFrom(locked, current, d, 0);
      var rest := Pack(locked, fs[1..], s + d, slots);
      PackEntry(locked, fs[1..], s + d, slots, k - 1);
      assert Pack(locked, fs, current, slots)[k] == rest[k - 1] by {
        assert Pack(locked, fs, current, slots) == [StudyTask(fs[0].info, s, TagFor(slots, HourOf(s)))] + rest;
      }
      assert fs[k] == fs[1..][k - 1];
    }
  }

  /** `resultTasks.map(...)` on the locked part: a new tag from the fixed start. */
  function Retag(locked: seq<StudyTask>, slots: seq<TimeSlot>): (r: seq<StudyTask>)
    ensures |r| == |locked|
    ensures forall k :: 0 <= k < |locked| ==>
              r[k].info == locked[k].info && r[k].startTime == locked[k].startTime
              && r[k].energyTag == TagFor(slots, HourOf(locked[k].startTime))
  {
    seq(|locked|, k requires 0 <= k < |locked| =>
      locked[k].(energyTag := TagFor(slots, HourOf(locked[k].startTime))))
  }

  /** The hour floating tasks start from. */
  function StartHour(preference: Option<string>): (h: int)
    ensures 0 <= h < 24
  {
    if preference == Some("morning") then 6
    else if preference == Some("afternoon") then 12
    else if preference == Some("night") then 19
    else 9
  }

  /** The starting hour on the day of the first task. */
  function BaseTime(tasks: seq<StudyTask>, preference: Option<string>): (b: int)
    requires tasks != []
    ensures DayOf(b) == DayOf(tasks[0].startTime) && HourOf(b) == StartHour(preference)
  {
    StartOfDay(tasks[0].startTime) + StartHour(preference) * 60
  }

  function FloatingOrder(tasks: seq<StudyTask>, preference: Option<string>): (r: seq<StudyTask>)
    ensures |r| == |Floating(tasks)| && multiset(r) == multiset(Floating(tasks))
    ensures |Locked(tasks)| + |r| == |tasks|
  {
    SplitPermutes(tasks);
    assert |multiset(Locked(tasks))| + |multiset(Floating(tasks))| == |multiset(tasks)|;
    if Active(preference) then SortBy(Floating(tasks), PriorityKey) else Floating(tasks)
  }

  /** The list before the chronological sort: locked tasks, then the placed floating ones. */
  /** The re-tagged locked tasks followed by the packed floating ones. */
  function Splice(locked: seq<StudyTask>, fl: seq<StudyTask>, base: int, slots: seq<TimeSlot>): (r: seq<StudyTask>)
    ensures |r| == |locked| + |fl|
  {
    Retag(locked, slots) + Pack(locked, fl, base, slots)
  }

  function Placed(tasks: seq<StudyTask>, preference: Option<string>): (r: seq<StudyTask>)
    requires tasks != []
    ensures |r| == |tasks|
  {
    Splice(Locked(tasks), FloatingOrder(tasks, preference), BaseTime(tasks, preference), ActiveSlots(preference))
  }

  /** Each entry of the list before the sort: a re-tagged locked task, or a floating
      task in its new place. */
  lemma SplicedEntry(locked: seq<StudyTask>, fl: seq<StudyTask>, base: int, slots: seq<TimeSlot>, i: nat)
    requires i < |locked| + |fl|
    ensures Splice(locked, fl, base, slots)[i].energyTag
            == TagFor(slots, HourOf(Splice(locked, fl, base, slots)[i].startTime))
    ensures i < |locked| ==>
              Splice(locked, fl, base, slots)[i].info == locked[i].info
              && Splice(locked, fl, base, slots)[i].startTime == locked[i].startTime
    ensures i >= |locked| ==>
              Splice(locked, fl, base, slots)[i].info == fl[i - |locked|].info
  {
    if i >= |locked| {
      PackEntry(locked, fl, base, slots, i - |locked|);
    }
  }

  lemma FloatingOrderUnlocked(tasks: seq<StudyTask>, preference: Option<string>, k: nat)
    requires k < |FloatingOrder(tasks, preference)|
    ensures !FloatingOrder(tasks, preference)[k].info.isLocked
  {
    assert FloatingOrder(tasks, preference)[k] in multiset(Floating(tasks));
  }

  /** Every entry of the list before the sort carries the tag of its start hour. */
  lemma PlacedTag(tasks: seq<StudyTask>, preference: Option<string>, i: nat)
    requires tasks != [] && i < |tasks|
    ensures Placed(tasks, preference)[i].energyTag
            == TagFor(ActiveSlots(preference), HourOf(Placed(tasks, preference)[i].startTime))
  {
    SplicedEntry(Locked(tasks), FloatingOrder(tasks, preference), BaseTime(tasks, preference), ActiveSlots(preference), i);
  }

  /** The first entries are the locked tasks, in input order, at their own start. */
  lemma PlacedLocked(tasks: seq<StudyTask>, preference: Option<string>, i: nat)
    requires tasks != [] && i < |Locked(tasks)|
    ensures Placed(tasks, preference)[i].info == Locked(tasks)[i].info
    ensures Placed(tasks, preference)[i].startTime == Locked(tasks)[i].startTime
  {
    SplicedEntry(Locked(tasks), FloatingOrder(tasks, preference), BaseTime(tasks, preference), ActiveSlots(preference), i);
  }

  /** The entries after the locked tasks are floating tasks. */
  lemma PlacedFloating(tasks: seq<StudyTask>, preference: Option<string>, i: nat)
    requires tasks != [] && |Locked(tasks)| <= i < |tasks|
    ensures !Placed(tasks, preference)[i].info.isLocked
  {
    var locked := Locked(tasks);
    var fl := FloatingOrder(tasks, preference);
    var k := i - |locked|;
    SplicedEntry(locked, fl, BaseTime(tasks, preference), ActiveSlots(preference), i);
    FloatingOrderUnlocked(tasks, preference, k);
  }


  /** Every output task is one of the list before the sort. */
  lemma OutputFromPlaced(tasks: seq<StudyTask>, preference: Option<string>, t: StudyTask)
    requires tasks != [] && t in Optimize(tasks, preference).0
    ensures exists i :: 0 <= i < |tasks| && Placed(tasks, preference)[i] == t
  {
    var placed := Placed(tasks, preference);
    SortedMember(placed, StartKey, t);
    var i :| 0 <= i < |placed| && placed[i] == t;
  }

  /** The first sentence of the explanation, by preference. */
  function Headline(preference: Option<string>): string {
    if preference == Some("morning") then "Schedule optimized for Morning energy."
    else if preference == Some("afternoon") then "Schedule optimized for Afternoon energy."
    else if preference == Some("night") then "Schedule optimized for Night energy."
    else "Schedule evenly distributed."
  }

  function Explanation(tasks: seq<StudyTask>, preference: Option<string>): string {
    if |Locked(tasks)| > 0 then Headline(preference) + " Manual overrides respected."
    else Headline(preference)
  }


  /** `optimizeSchedule`: the tasks and the explanation. */
  function Optimize(tasks: seq<StudyTask>, preference: Option<string>): (r: (seq<StudyTask>, string))
    ensures tasks == [] ==> r == ([], "")
    ensures |r.0| == |tasks| && SortedBy(r.0, StartKey)
  {
    if tasks == [] then ([], "")
    else (SortBy(Placed(tasks, preference), StartKey), Explanation(tasks, preference))
  }

  // ---------------------------------------------------------------------------
  // Properties

  lemma RetagInfos(locked: seq<StudyTask>, slots: seq<TimeSlot>)
    ensures Map(Retag(locked, slots), Info) == Map(locked, Info)
  {
  }

  lemma PackInfos(locked: seq<StudyTask>, fl: seq<StudyTask>, base: int, slots: seq<TimeSlot>)
    ensures Map(Pack(locked, fl, base, slots), Info) == Map(fl, Info)
  {
    forall k | 0 <= k < |fl|
      ensures Map(Pack(locked, fl, base, slots), Info)[k] == Map(fl, Info)[k]
    {
      PackEntry(locked, fl, base, slots, k);
    }
  }

  /** Splicing keeps every task's unchanged fields, in order. */
  lemma SpliceInfos(locked: seq<StudyTask>, fl: seq<StudyTask>, base: int, slots: seq<TimeSlot>)
    ensures Map(Splice(locked, fl, base, slots), Info) == Map(locked, Info) + Map(fl, Info)
  {
    MapAppend(Retag(locked, slots), Pack(locked, fl, base, slots), Info);
    RetagInfos(locked, slots);
    PackInfos(locked, fl, base, slots);
  }

  /** Locked and floating tasks together are the input, up to order. */
  lemma SplitInfos(tasks: seq<StudyTask>, fl: seq<StudyTask>)
    requires multiset(fl) == multiset(Floating(tasks))
    ensures multiset(Map(Locked(tasks), Info) + Map(fl, Info)) == multiset(Map(tasks, Info))
  {
    MapPermute(fl, Floating(tasks), Info);
    SplitPermutes(tasks);
    MapPermute(Locked(tasks) + Floating(tasks), tasks, Info);
    MapAppend(Locked(tasks), Floating(tasks), Info);
  }

  /** Every input task appears in the output exactly once, with its unchanged fields
      unchanged. */
  lemma OptimizePermutes(tasks: seq<StudyTask>, preference: Option<string>)
    ensures multiset(Map(Optimize(tasks, preference).0, Info)) == multiset(Map(tasks, Info))
  {
    if tasks != [] {
      var locked := Locked(tasks);
      var fl := FloatingOrder(tasks, preference);
      var placed := Placed(tasks, preference);
      MapPermute(SortBy(placed, StartKey), placed, Info);
      SpliceInfos(locked, fl, BaseTime(tasks, preference), ActiveSlots(preference));
      SplitInfos(tasks, fl);
    }
  }


  /** A locked task in the output sits where it sat in the input. */
  lemma LockedOutputFromInput(tasks: seq<StudyTask>, preference: Option<string>, t: StudyTask)
    requires t in Optimize(tasks, preference).0 && t.info.isLocked
    ensures exists u :: u in tasks && u.info == t.info && u.startTime == t.startTime
  {
    var locked := Locked(tasks);
    OutputFromPlaced(tasks, preference, t);
    var i :| 0 <= i < |tasks| && Placed(tasks, preference)[i] == t;
    if i < |locked| {
      PlacedLocked(tasks, preference, i);
      assert locked[i] in locked;
    } else {
      PlacedFloating(tasks, preference, i);
      assert false;
    }
  }

  /** A locked input task is in the output at its own start. */
  lemma LockedInputInOutput(tasks: seq<StudyTask>, preference: Option<string>, u: StudyTask)
    requires u in tasks && u.info.isLocked
    ensures exists t :: t in Optimize(tasks, preference).0 && t.info == u.info && t.startTime == u.startTime
  {
    var locked := Locked(tasks);
    var placed := Placed(tasks, preference);
    assert u in locked;
    var k :| 0 <= k < |locked| && locked[k] == u;
    PlacedLocked(tasks, preference, k);
    SortedMember(placed, StartKey, placed[k]);
  }

  /** Locked tasks keep their start time and every field but the energy tag, and
      every one of them is in the output. */
  lemma LockedStayPut(tasks: seq<StudyTask>, preference: Option<string>)
    ensures forall t :: t in Optimize(tasks, preference).0 && t.info.isLocked ==>
              exists u :: u in tasks && u.info == t.info && u.startTime == t.startTime
    ensures forall u :: u in tasks && u.info.isLocked ==>
              exists t :: t in Optimize(tasks, preference).0 && t.info == u.info && t.startTime == u.startTime
  {
    forall t | t in Optimize(tasks, preference).0 && t.info.isLocked
      ensures exists u :: u in tasks && u.info == t.info && u.startTime == t.startTime
    {
      LockedOutputFromInput(tasks, preference, t);
    }
    forall u | u in tasks && u.info.isLocked
      ensures exists t :: t in Optimize(tasks, preference).0 && t.info == u.info && t.startTime == u.startTime
    {
      LockedInputInOutput(tasks, preference, u);
    }
  }

  /** Floating tasks are placed one after another: each ends before the next begins,
      so no two of them overlap. */
  lemma {:induction false} PackNoOverlap(locked: seq<StudyTask>, fs: seq<StudyTask>, current: int, slots: seq<TimeSlot>)
    requires forall k :: 0 <= k < |fs| ==> fs[k].info.durationMinutes >= 0
    ensures forall k :: 0 <= k < |fs| ==> current <= Pack(locked, fs, current, slots)[k].startTime
    ensures forall j, k :: 0 <= j < k < |fs| ==>
              Pack(locked, fs, current, slots)[j].startTime + fs[j].info.durationMinutes
              <= Pack(locked, fs, current, slots)[k].startTime
    decreases |fs|
  {
    if fs != [] {
      var s := SlotFrom(locked, current, fs[0].info.durationMinutes, 0);
      SlotFromSpec(locked, current, fs[0].info.durationMinutes, 0);
      var next := s + fs[0].info.durationMinutes;
      PackNoOverlap(locked, fs[1..], next, slots);
      var r := Pack(locked, fs, current, slots);
      var rest := Pack(locked, fs[1..], next, slots);
      assert r[0].startTime == s;
      forall k | 1 <= k < |r|
        ensures r[k] == rest[k - 1]
      {
      }
      forall k | 0 <= k < |r|
        ensures current <= r[k].startTime
      {
        if k > 0 {
          assert rest[k - 1].startTime >= next;
        }
      }
    }
  }

    /** The slot search ends on a free slot, or gives up after every one of the
      100 quarter-hours before the slot it returns overlapped a locked task. */
  predicate FreeOrExhausted(locked: seq<StudyTask>, start: int, duration: int) {
    !Overlaps(locked, start, duration)
    || forall j :: 1 <= j <= 100 ==> Overlaps(locked, start - 15 * j, duration)
  }

  lemma SlotExhausted(locked: seq<StudyTask>, t: int, duration: int)
    ensures FreeOrExhausted(locked, SlotFrom(locked, t, duration, 0), duration)
  {
    var r := SlotFrom(locked, t, duration, 0);
    SlotFromSpec(locked, t, duration, 0);
    if Overlaps(locked, r, duration) {
      forall j | 1 <= j <= 100
        ensures Overlaps(locked, r - 15 * j, duration)
      {
        assert r - 15 * j == t + 15 * (100 - j);
      }
    }
  }

  /** Each floating task overlaps no locked task, unless all 100 quarter-hour
      candidates before its slot overlapped one. */
  lemma {:induction false} PackAvoidsLocked(locked: seq<StudyTask>, fs: seq<StudyTask>, current: int, slots: seq<TimeSlot>)
    ensures forall k :: 0 <= k < |fs| ==>
              FreeOrExhausted(locked, Pack(locked, fs, current, slots)[k].startTime, fs[k].info.durationMinutes)
    decreases |fs|
  {
    if fs != [] {
      var d := fs[0].info.durationMinutes;
      var s := SlotFrom(locked, current, d, 0);
      PackAvoidsLocked(locked, fs[1..], s + d, slots);
      var r := Pack(locked, fs, current, slots);
      var rest := Pack(locked, fs[1..], s + d, slots);
      SlotExhausted(locked, current, d);
      forall k | 0 <= k < |fs|
        ensures FreeOrExhausted(locked, r[k].startTime, fs[k].info.durationMinutes)
      {
        if k > 0 {
          assert r[k] == rest[k - 1];
          assert fs[k] == fs[1..][k - 1];
        }
      }
    }
  }

  /** With a preference set, floating tasks are placed in priority order: higher
      priority first, then higher difficulty. */
  lemma PackInPriorityOrder(tasks: seq<StudyTask>, preference: Option<string>)
    requires tasks != [] && Active(preference)
    ensures var r := Pack(Locked(tasks), FloatingOrder(tasks, preference), BaseTime(tasks, preference),
                          ActiveSlots(preference));
            SortedBy(r, PriorityKey)
  {
    var fl := FloatingOrder(tasks, preference);
    var r := Pack(Locked(tasks), fl, BaseTime(tasks, preference), ActiveSlots(preference));
    forall k | 0 <= k < |r|
      ensures r[k].info == fl[k].info
    {
      PackEntry(Locked(tasks), fl, BaseTime(tasks, preference), ActiveSlots(preference), k);
    }
  }

  /** Every task is tagged by the window its start hour falls in; no preference, no tags. */
  lemma TagsFollowStart(tasks: seq<StudyTask>, preference: Option<string>)
    ensures forall t :: t in Optimize(tasks, preference).0 ==>
              t.energyTag == TagFor(ActiveSlots(preference), HourOf(t.startTime))
    ensures !Active(preference) ==> forall t :: t in Optimize(tasks, preference).0 ==> t.energyTag.None?
  {
    if tasks != [] {
      var placed := Placed(tasks, preference);
      forall t | t in Optimize(tasks, preference).0
        ensures t.energyTag == TagFor(ActiveSlots(preference), HourOf(t.startTime))
      {
        OutputFromPlaced(tasks, preference, t);
        var i :| 0 <= i < |tasks| && placed[i] == t;
        PlacedTag(tasks, preference, i);
      }
    }
  }

  // ---------------------------------------------------------------------------
  // The imperative algorithm

  /** `isOverlapping`: the loop over the locked tasks with an early return. */
  method IsOverlapping(locked: seq<StudyTask>, start: int, duration: int) returns (b: bool)
    ensures b == Overlaps(locked, start, duration)
  {
    for k := 0 to |locked|
      invariant forall i :: 0 <= i < k ==>
        !(start < locked[i].startTime + locked[i].info.durationMinutes && start + duration > locked[i].startTime)
    {
      if start < locked[k].startTime + locked[k].info.durationMinutes && start + duration > locked[k].startTime {
        return true;
      }
    }
    return false;
  }

  /** `findNextSlot`. */
  method FindNextSlot(locked: seq<StudyTask>, current: int, duration: int) returns (candidate: int)
    ensures candidate == SlotFrom(locked, current, duration, 0)
  {
    candidate := current;
    var attempts := 0;
    var overlapping := IsOverlapping(locked, candidate, duration);
    while overlapping && attempts < 100
      invariant 0 <= attempts <= 100
      invariant overlapping == Overlaps(locked, candidate, duration)
      invariant SlotFrom(locked, candidate, duration, attempts) == SlotFrom(locked, current, duration, 0)
      decreases 100 - attempts
    {
      candidate := candidate + 15;
      attempts := attempts + 1;
      overlapping := IsOverlapping(locked, candidate, duration);
    }
  }

  /** One step of `Pack` from position `i` of the floating tasks. */
  lemma PackAt(locked: seq<StudyTask>, fs: seq<StudyTask>, i: nat, current: int, slots: seq<TimeSlot>)
    requires i < |fs|
    ensures Pack(locked, fs[i..], current, slots)
            == [StudyTask(fs[i].info, SlotFrom(locked, current, fs[i].info.durationMinutes, 0),
                          TagFor(slots, HourOf(SlotFrom(locked, current, fs[i].info.durationMinutes, 0))))]
               + Pack(locked, fs[i + 1..], SlotFrom(locked, current, fs[i].info.durationMinutes, 0) + fs[i].info.durationMinutes, slots)
  {
    assert fs[i..][1..] == fs[i + 1..];
  }

  /** The loop of `optimizeSchedule` over the floating tasks. */
  method PackFloating(locked: seq<StudyTask>, floating: seq<StudyTask>, base: int, slots: seq<TimeSlot>)
    returns (packed: seq<StudyTask>)
    ensures packed == Pack(locked, floating, base, slots)
  {
    var current := base;
    packed := [];
    for i := 0 to |floating|
      invariant packed + Pack(locked, floating[i..], current, slots) == Pack(locked, floating, base, slots)
    {
      var slotStart := FindNextSlot(locked, current, floating[i].info.durationMinutes);
      var next := slotStart + floating[i].info.durationMinutes;
      var placed := StudyTask(floating[i].info, slotStart, TagFor(slots, HourOf(slotStart)));
      PackAt(locked, floating, i, current, slots);
      AppendAssoc(packed, [placed], Pack(locked, floating[i + 1..], next, slots));
      current := next;
      packed := packed + [placed];
    }
  }

  /** The preference switch at the head of `optimizeSchedule`. */
  method ChooseStart(preference: Option<string>) returns (startHour: int, explanation: string)
    ensures startHour == StartHour(preference) && explanation == Headline(preference)
  {
    explanation := "Schedule balanced.";
    startHour := 9;
    if preference == Some("morning") {
      startHour := 6;
      explanation := "Schedule optimized for Morning energy.";
    } else if preference == Some("afternoon") {
      startHour := 12;
      explanation := "Schedule optimized for Afternoon energy.";
    } else if preference == Some("night") {
      startHour := 19;
      explanation := "Schedule optimized for Night energy.";
    } else {
      explanation := "Schedule evenly distributed.";
    }
  }

  /** `optimizeSchedule`. */
  method OptimizeSchedule(tasks: seq<StudyTask>, preference: Option<string>)
    returns (optimized: seq<StudyTask>, explanation: string)
    ensures (optimized, explanation) == Optimize(tasks, preference)
  {
    if |tasks| == 0 {
      return [], "";
    }
    var locked := Locked(tasks);
    var floating := Floating(tasks);
    var startHour;
    startHour, explanation := ChooseStart(preference);
    if |locked| > 0 {
      explanation := explanation + " Manual overrides respected.";
    }
    if Active(preference) {
      floating := SortBy(floating, PriorityKey);
    }
    var slots := if Active(preference) then EnergySlots(preference.value) else [];
    var base := StartOfDay(tasks[0].startTime) + startHour * 60;
    assert floating == FloatingOrder(tasks, preference);
    assert base == BaseTime(tasks, preference) && slots == ActiveSlots(preference);
    var packed := PackFloating(locked, floating, base, slots);
    var finalTasks := Retag(locked, slots) + packed;
    optimized := SortBy(finalTasks, StartKey);
  }
}
