# SmartLearnAI core, modelled in Dafny

SmartLearnAI is a study assistant with a FastAPI backend and a React frontend.
This project models the parts of it that decide what the user sees and what is
stored, and proves properties of them:

- **Plan generation** (`generate_tasks`): a comma-separated topic string spread
  over every day of an inclusive date range. Topics cycle when there are at most
  as many topics as days, and are compressed into consecutive slices otherwise.
  The batch of tasks is committed or rolled back as a whole (`PlanGenerator`,
  `PlannerDb`).
- **The AI study plan** (`StudyPlannerApi`): request validation with
  `strptime("%Y-%m-%d")` (`Strptime`, `Calendar`), the Gemini model-name choice
  over a supplied listing, the reconciliation of the AI reply's items with the
  exam date, and the "complete" transition of an AI task.
- **Exams** (`ExamApi`): the teacher and student listings, the submission upsert
  and the grading. A submission is "pending" (no row), then "submitted", then
  "graded".
- **The energy scheduler** (`EnergyPlanner`): preference windows, the keyword
  difficulty classifier, and `optimizeSchedule`. Locked tasks stay put. Floating
  tasks are ordered and packed past the locked ones, tagged, and sorted by time.
- **Planner state and pages** (`PlannerState`, `PlannerPage`, `CreateTask`): the
  calendar strip, the exams read off the task list, the optimistic list updates,
  the duration and days-left labels, and the task dialog.
- **Quizzes**:
  - the editor in its two versions (`QuizAuthoring`);
  - the timed session in its two versions (`QuizSession`);
  - the student's quiz list in its two versions (`QuizLists`);
  - the quiz cache (`QuizContext`);
  - the teacher's management page (`QuizManagement`);
  - the adaptive practice game (`AdaptiveQuiz`).
- **Small forms and lists**: the password-strength meter (`PasswordStrength`),
  the sign-up checks (`Signup`), and the teacher directory with its follow toggle
  and teacher cache (`TeachersPage`, `TeacherContext`).

Shared modules:

- `Text`: strings, trimming, splitting, decimal printing and parsing.
- `Sorting`: stable sorting by a two-integer key. Every comparator in the system
  becomes such a key.
- `Lists`: the id-keyed `map`/`filter` updates the frontend repeats.
- `Arith`: division facts.
- `Wrappers`: `Option` and HTTP-style outcomes.

Time is an integer number of minutes from a fixed local midnight. The day of a
time `t` is `t / 1440`, a Python `toordinal()` day number. The clock, the
network, the database and the Gemini reply enter the model as parameters.

State that the source updates step by step is modelled by classes with
`modifies` clauses: React state, context stores, and the SQLAlchemy session.
Pure rules are modelled by functions with lemmas.

## Model

| member | source | states |
|---|---|---|
| Text.TrimStart | backend/api/ai.py:67 | the leading characters removed are all whitespace and the result starts with a non-space |
| Text.TrimEnd | backend/api/ai.py:67 | the trailing characters removed are all whitespace and the result ends with a non-space |
| Text.TrimEmptyIff | frontend/src/components/CreateTaskModal.tsx:40 | a string trims to nothing exactly when every character is whitespace |
| Text.Lower | frontend/src/utils/energyPlanner.ts:57-58 | ASCII lower-casing: same length, each upper-case letter moved down by 32 and every other character kept |
| Text.ContainsIff | frontend/src/utils/energyPlanner.ts:61-82 | `includes` holds exactly when the text occurs at some position |
| Text.Split | backend/api/ai.py:67 | at least one piece, and no piece holds the separator |
| Text.JoinSplit | backend/api/ai.py:67 | splitting and joining back with the separator gives the original string |
| Text.SplitJoin | backend/api/ai.py:67 | pieces without the separator, joined, split back into the same pieces |
| Text.NatToString | backend/api/study_planner.py:266 | the decimal digits of a number, without a leading zero unless it is zero |
| Text.NatToStringRoundTrip | backend/api/study_planner.py:266 | reading back a printed number gives the number |
| Text.PadStart | frontend/src/components/CreateTaskModal.tsx:16-17 | `padStart`: a string already wide enough is kept; otherwise it is filled on the left up to the width |
| Text.Pad2Value | frontend/src/components/CreateTaskModal.tsx:16-17 | a number below 100 pads to two digits that read back as the number |
| Calendar.DaysInMonth | backend/api/study_planner.py:156-157 | every month has 28 to 31 days |
| Calendar.OrdinalRoundTrip | backend/api/ai.py:72-77 | every day number is the ordinal of a real date |
| Calendar.DateRoundTrip | backend/api/ai.py:72-77 | every real date has an ordinal that gives the date back, so day arithmetic loses nothing |
| Calendar.OrdinalOrder | backend/api/study_planner.py:158-159 | dates compare as their ordinals do, and different dates have different ordinals |
| Calendar.StartOfDay | frontend/src/context/StudyPlannerContext.tsx:85-86 | midnight of the day: on the same day, not after the time, and less than a day before it |
| Calendar.HourOf | frontend/src/utils/energyPlanner.ts:184 | the hour of a time is an hour of the day |
| Calendar.WeekdayCycle | frontend/src/context/StudyPlannerContext.tsx:95 | weekdays repeat every seven days and advance by one each day |
| Strptime.ParseYmd | backend/api/study_planner.py:156-157 | a date read from text is a real date between years 1 and 9999 |
| Strptime.ParseFormatIso | backend/api/study_planner.py:156-157 | every real date written as YYYY-MM-DD reads back as itself |
| Strptime.RejectsMonth13 | backend/api/study_planner.py:156-157 | a thirteenth month is refused |
| Strptime.RejectsFebruary30 | backend/api/study_planner.py:156-157 | a day past the month's end is refused |
| Strptime.AcceptsShortFields | backend/api/study_planner.py:156-157 | one-digit months and days are accepted, as `%m` and `%d` allow |
| Sorting.SortBy | frontend/src/utils/energyPlanner.ts:222 | the sorted list is a permutation of the input in key order |
| Sorting.SortStable | frontend/src/context/StudyPlannerContext.tsx:139-141 | elements with equal keys keep their input order |
| Sorting.SortedMember | frontend/src/context/StudyPlannerContext.tsx:139-141 | sorting keeps exactly the elements it was given |
| PlanGenerator.KeepStripped | backend/api/ai.py:67 | the kept topics are at most as many as the comma pieces, and none of them is empty |
| PlanGenerator.KeepStrippedAppend | backend/api/ai.py:67 | stripping and dropping blanks works piece by piece, so the surviving topics keep the order of the pieces |
| PlanGenerator.ParseTopics | backend/api/ai.py:67-69 | parsing always yields at least one topic |
| PlanGenerator.ParseTopicsClean | backend/api/ai.py:67-69 | every parsed topic is non-empty and contains no comma |
| PlanGenerator.TopicsRoundTrip | backend/api/ai.py:67-69 | non-empty, stripped, comma-free topics joined with "," parse back to the same list |
| PlanGenerator.BlankTopics | backend/api/ai.py:67-69 | a string made only of commas and whitespace gives exactly the single topic "General Study" |
| PlanGenerator.PySlice | backend/api/ai.py:86 | Python's `s[lo:hi]` is the ordinary slice when the bounds are in range |
| PlanGenerator.BoundaryStep | backend/api/ai.py:82-85 | with more topics T than days D, the bounds ⌊k·T/D⌋ rise strictly from 0 at k = 0 to T at k = D |
| PlanGenerator.CompressedDay | backend/api/ai.py:82-86 | with T > D, day i gets the non-empty slice of topics between its two bounds |
| PlanGenerator.CyclingDay | backend/api/ai.py:90-92 | with T ≤ D, day i studies topic i mod T, so the topics repeat every T days |
| PlanGenerator.Schedule | backend/api/ai.py:76-92 | the schedule has one topic list per day |
| PlanGenerator.CompressedCoversAll | backend/api/ai.py:82-89 | with T > D, the days' topic lists laid end to end are exactly the topic list: each topic is studied once, in order, and the fallback at lines 88-89 is never taken |
| PlanGenerator.DayNonEmpty | backend/api/ai.py:79-92 | every day has at least one topic |
| PlanGenerator.PlanCoversRange | backend/api/ai.py:72-77 | there are end − start + 1 tasks; the i-th is dated start + i and numbered i + 1, and the last falls on the end date |
| PlanGenerator.PlanTaskShape | backend/api/ai.py:99-111 | every task starts at 09:00 on its own date, lasts hours_per_day·60 minutes, carries the goal's goal and student ids and is 'active' |
| PlanGenerator.NineOClock | backend/api/ai.py:99 | 09:00 of a date falls on that date, in hour 9, on a whole hour |
| PlanGenerator.PlanTitles | backend/api/ai.py:94-96 | each title is "Study " followed by that day's non-empty topics joined with " & " |
| PlanGenerator.GenerateTasks | backend/api/ai.py:38-123 | 404 for a goal the caller does not own and 400 when start ≥ end, both writing nothing; 500 with no rows kept when the commit fails; otherwise exactly the numbered plan is appended to the task table; nothing stays staged |
| PlannerDb.OwnedGoal | backend/api/ai.py:44-50 | a goal is found only when it belongs to the calling user |
| PlannerDb.Numbered | backend/api/ai.py:116 | committed rows keep their order and take consecutive auto-increment ids |
| PlannerDb.FindOwned | backend/api/study_planner.py:282-285 | the row found has the task id and the student id asked for, and when none is found no row has both |
| PlannerDb.TaskTable.Add | backend/api/ai.py:113 | `db.add` stages the row after those already staged and writes nothing |
| PlannerDb.TaskTable.Commit | backend/api/ai.py:116 | `db.commit` appends every staged row, numbered from the next id, and keeps ids increasing |
| PlannerDb.TaskTable.Rollback | backend/api/ai.py:120-122 | `db.rollback` discards every staged row and leaves the stored rows as they were |
| PlannerDb.TaskTable.SetStatus | backend/api/study_planner.py:290-291 | only the one row's status changes |
| StudyPlannerApi.ValidNames | backend/api/study_planner.py:55-58 | the models kept are those listing generateContent, in listing order |
| StudyPlannerApi.FirstContaining | backend/api/study_planner.py:60-67 | the index returned is the first name containing the text, and no name contains it when none is returned |
| StudyPlannerApi.ChooseModelPicksValid | backend/api/study_planner.py:54-70 | when some model supports generateContent the choice is one of them, and it contains the configured name whenever a valid name does; with no valid model the fallback applies |
| StudyPlannerApi.ChooseModelFallback | backend/api/study_planner.py:72-75 | without a usable listing the configured name is used, else "models/gemini-1.5-flash" |
| StudyPlannerApi.SelectModel | backend/api/study_planner.py:47-75 | the loops of `get_valid_gemini_model` return exactly the name the selection rule chooses |
| StudyPlannerApi.FirstContainingIs | backend/api/study_planner.py:61-63 | the first matching name is the one returned |
| StudyPlannerApi.ReconcileFailureSticks | backend/api/study_planner.py:233-270 | once an item raises, no later item can save the batch |
| StudyPlannerApi.KeptBeforeExam | backend/api/study_planner.py:233-259 | a kept item becomes an 'active' task of the goal's student, on a whole hour of a day strictly before the exam day |
| StudyPlannerApi.ReconcileBeforeExam | backend/api/study_planner.py:233-262 | every staged task lies strictly before the exam day, and there are no more tasks than items |
| StudyPlannerApi.DefaultsToNine | backend/api/study_planner.py:234-243 | an item whose start_hour key is missing is scheduled at 09:00 of start date + offset |
| StudyPlannerApi.NullHourRaises | backend/api/study_planner.py:239-243 | a start_hour given as JSON null is not defaulted: `int(None)` raises on a day before the exam, and the whole reply is refused |
| StudyPlannerApi.LateItemSkipped | backend/api/study_planner.py:234-237 | an item on or after the exam day is skipped, never stored and never fatal |
| StudyPlannerApi.StageItems | backend/api/study_planner.py:233-262 | the loop stages exactly the reconciled tasks, and reports failure exactly when some item raises (a missing key, a null offset or hour, an hour outside 0..23, a day Python cannot represent) |
| StudyPlannerApi.EffectivePreference | backend/api/study_planner.py:164 | the preference is never empty, and a given non-empty preference is kept ("balanced" otherwise) |
| StudyPlannerApi.ValidatedDates | backend/api/study_planner.py:146-161 | a request that passes validation names a goal of the caller, and both dates parse as YYYY-MM-DD with the start strictly before the exam |
| StudyPlannerApi.GenerateStudyPlan | backend/api/study_planner.py:133-270 | a validation failure returns its status and writes nothing; success stores exactly the reconciled tasks and reports their number; any other failure is 500 "Plan Generation Failed" with nothing written |
| StudyPlannerApi.MarkCompleted | backend/api/study_planner.py:290 | only the chosen row changes, and its status becomes 'completed' |
| StudyPlannerApi.CompleteIdempotent | backend/api/study_planner.py:282-291 | completing a task twice is completing it once, and the same row is found again |
| StudyPlannerApi.CompleteAiTask | backend/api/study_planner.py:272-294 | as written: 400 without a student profile; 404 unless a row has the task id and the student profile's id; else that row becomes 'completed' |
| StudyPlannerApi.OwnerLockedOut | backend/api/study_planner.py:282-288 | a task stored for a goal of user u carries u's user id, so when the student profile id differs the check as written finds nothing: the owner gets 404 |
| StudyPlannerApi.CompleteOwnAiTask | backend/api/study_planner.py:272-294 | corrected: the same three outcomes, with ownership checked against the user id that task rows carry |
| StudyPlannerApi.OwnerCanComplete | backend/api/study_planner.py:282-290 | with the user-id check, every task of the owner's plan is found and can be completed |
| ExamApi.ExamsBy | backend/api/exam.py:69 | exactly the exams whose teacher is in the set, in table order |
| ExamApi.TeacherExams | backend/api/exam.py:48-56 | 403 exactly for a non-teacher, 400 exactly for a teacher without a profile, and otherwise exactly that teacher's exams |
| ExamApi.Followed | backend/api/exam.py:65-66 | exactly the teachers the student follows |
| ExamApi.SubsMap | backend/api/exam.py:75-79 | the map only holds the student's own submissions to listed exams, each under its exam id |
| ExamApi.Entries | backend/api/exam.py:81-93 | one entry per listed exam, in order, built from the exam's submission when there is one |
| ExamApi.StudentExams | backend/api/exam.py:58-62 | 400 exactly when the caller has no student profile |
| ExamApi.StudentSeesFollowed | backend/api/exam.py:64-69 | a student's list holds only exams of teachers they follow, and every such exam |
| ExamApi.SubsMapFinds | backend/api/exam.py:75-79 | with one submission per pair, the map holds each of the student's submissions under its exam |
| ExamApi.StudentStatus | backend/api/exam.py:81-93 | an entry is 'pending' with no marks exactly when the student has no submission for it; otherwise it shows that submission's status and marks |
| ExamApi.FindSub | backend/api/exam.py:146 | the row found belongs to the exam and student asked for, and when none is found no row does |
| ExamApi.Submit | backend/api/exam.py:145-157 | a resubmission keeps the number of rows and ids; a first submission adds one row and uses one id |
| ExamApi.SubmitKeepsInvariants | backend/api/exam.py:145-175 | submitting keeps one submission per (exam, student), increasing ids and statuses among 'submitted' and 'graded' |
| ExamApi.SubmitEffect | backend/api/exam.py:145-173 | afterwards exactly one row holds the pair, stamped with the new time, and no other row changes; a new row is 'submitted' with no marks, an existing one keeps status, marks and feedback |
| ExamApi.SubmitTwice | backend/api/exam.py:146-149 | a second submission by the same student adds no row and uses no id |
| ExamApi.FindSubById | backend/api/exam.py:220 | the row found has the id asked for, and when none is found no row has it |
| ExamApi.GradeAt | backend/api/exam.py:224-226 | grading changes no other row |
| ExamApi.Stage | backend/api/exam.py:146-157 | the stage of a pair is pending (0), submitted (1) or graded (2) |
| ExamApi.GradeEffect | backend/api/exam.py:224-226 | grading keeps the table's invariants and sets marks, feedback and status 'graded' |
| ExamApi.StagesOnlyAdvance | backend/api/exam.py:145-226 | neither submitting nor grading moves any pair back from submitted to pending or from graded to submitted |
| ExamApi.ResubmitKeepsGraded | backend/api/exam.py:146-149 | a resubmission after grading keeps the status 'graded', the marks and the feedback |
| ExamApi.RowOf | backend/api/exam.py:192-205 | has_file is true exactly when a non-empty file path is stored; an unknown student shows as "Unknown" with an empty email |
| ExamApi.SubsOfExam | backend/api/exam.py:188 | exactly the exam's submissions, in table order |
| ExamApi.Rows | backend/api/exam.py:190-205 | one row per submission, in order |
| ExamApi.FindExam | backend/api/exam.py:141-143 | the exam found has the id asked for, and when none is found no exam has it |
| ExamApi.ListedExamsViewable | backend/api/exam.py:184-186 | every exam on a teacher's own list is one whose submissions that teacher may view |
| ExamApi.GatherSubs | backend/api/exam.py:75-79 | the dictionary comprehension builds exactly the submission map |
| ExamApi.BuildEntries | backend/api/exam.py:81-95 | the loop builds exactly the entry list |
| ExamApi.ExamDb.ListExamsStudent | backend/api/exam.py:58-95 | the endpoint returns the student's entry list, or 400 |
| ExamApi.ExamDb.SubmitExam | backend/api/exam.py:129-176 | 400 without a student profile and 404 for an unknown exam, changing nothing; otherwise the upsert, with the table's invariants kept |
| ExamApi.ExamDb.ViewSubmissions | backend/api/exam.py:178-207 | 403 unless the caller's teacher profile owns the exam; otherwise one row per submission of the exam |
| ExamApi.ExamDb.GradeSubmission | backend/api/exam.py:209-229 | 403 for a non-teacher or a teacher without a profile, 404 for an unknown submission, both changing nothing; otherwise that submission is graded |
| EnergyPlanner.EnergySlots | frontend/src/utils/energyPlanner.ts:30-50 | two windows exactly for "morning", "afternoon" and "night", none for any other preference |
| EnergyPlanner.TagFor | frontend/src/utils/energyPlanner.ts:187-192 | a tag is given exactly when some window holds the hour |
| EnergyPlanner.TagWindows | frontend/src/utils/energyPlanner.ts:30-50 | the peak and low hours of each preference are [6,10) and [16,21) for morning, [12,16) and [8,11) for afternoon, [19,23) and [13,17) for night; any other preference tags nothing |
| EnergyPlanner.Classify | frontend/src/utils/energyPlanner.ts:52-88 | "hard" feedback gives high focus and "easy" feedback low focus; otherwise high focus exactly when a high-focus keyword occurs, low focus exactly when none does and a low-focus keyword does |
| EnergyPlanner.ChapterRevisionIsHigh | frontend/src/utils/energyPlanner.ts:61-85 | an example of the keyword order: a "Revision" titled "Chapter 5" is high focus, because matching ignores case and the high-focus words are checked first |
| EnergyPlanner.EasyFeedbackWins | frontend/src/utils/energyPlanner.ts:53-55 | for every task type and title, "easy" feedback gives low focus and "hard" feedback high focus, even when a high-focus keyword is present |
| EnergyPlanner.PriorityValue | frontend/src/utils/energyPlanner.ts:126 | a priority value lies between 1 and 3 |
| EnergyPlanner.DifficultyScore | frontend/src/utils/energyPlanner.ts:136 | a difficulty score lies between 0 and 2 |
| EnergyPlanner.Locked | frontend/src/utils/energyPlanner.ts:99 | exactly the locked tasks |
| EnergyPlanner.Floating | frontend/src/utils/energyPlanner.ts:100 | exactly the tasks that are not locked |
| EnergyPlanner.SplitPermutes | frontend/src/utils/energyPlanner.ts:99-100 | the locked and the floating tasks together are the input, as a multiset |
| EnergyPlanner.SlotFromSpec | frontend/src/utils/energyPlanner.ts:164-174 | the slot found is the first quarter-hour step from the start that overlaps no locked task, or the start plus 100 steps when every step before overlaps |
| EnergyPlanner.SlotExhausted | frontend/src/utils/energyPlanner.ts:164-174 | a slot found from any start is free, or the 100 quarter hours before it all overlapped |
| EnergyPlanner.Pack | frontend/src/utils/energyPlanner.ts:177-200 | one placed task per floating task |
| EnergyPlanner.PackEntry | frontend/src/utils/energyPlanner.ts:195-199 | each placed floating task keeps its fields and is tagged from the hour of its new start |
| EnergyPlanner.Retag | frontend/src/utils/energyPlanner.ts:203-219 | each locked task keeps its fields and start and is tagged from the hour of its start |
| EnergyPlanner.StartHour | frontend/src/utils/energyPlanner.ts:103-116 | the start hour is an hour of the day |
| EnergyPlanner.BaseTime | frontend/src/utils/energyPlanner.ts:143-144 | the base time is on the first task's day, at the start hour |
| EnergyPlanner.FloatingOrder | frontend/src/utils/energyPlanner.ts:122-139 | the floating tasks are reordered but none is lost or added |
| EnergyPlanner.PackInPriorityOrder | frontend/src/utils/energyPlanner.ts:123-200 | with an energy preference, the floating tasks are placed highest priority first and, within a priority, hardest first |
| EnergyPlanner.Optimize | frontend/src/utils/energyPlanner.ts:95-224 | an empty input gives no tasks and an empty explanation; otherwise as many tasks as given, in chronological order |
| EnergyPlanner.OptimizePermutes | frontend/src/utils/energyPlanner.ts:95-225 | apart from start times and tags, the output is the input reordered: no task lost, duplicated or invented |
| EnergyPlanner.LockedStayPut | frontend/src/utils/energyPlanner.ts:203-219 | every locked task of the output is a locked input task at its own start, and every locked input task is in the output at its own start |
| EnergyPlanner.PackNoOverlap | frontend/src/utils/energyPlanner.ts:177-181 | floating tasks are placed one after another from the base time, none overlapping the next |
| EnergyPlanner.PackAvoidsLocked | frontend/src/utils/energyPlanner.ts:164-178 | each floating task overlaps no locked task unless the 100-step search is exhausted |
| EnergyPlanner.TagsFollowStart | frontend/src/utils/energyPlanner.ts:183-216 | every output task's tag is the window holding the hour of its start, and without an energy preference no task is tagged |
| EnergyPlanner.IsOverlapping | frontend/src/utils/energyPlanner.ts:150-161 | the loop answers whether the range overlaps some locked task |
| EnergyPlanner.FindNextSlot | frontend/src/utils/energyPlanner.ts:164-174 | the loop computes the slot search |
| EnergyPlanner.PackFloating | frontend/src/utils/energyPlanner.ts:176-200 | the loop places the floating tasks as the placement function does |
| EnergyPlanner.ChooseStart | frontend/src/utils/energyPlanner.ts:102-116 | the branches choose the start hour and headline of the preference |
| EnergyPlanner.OptimizeSchedule | frontend/src/utils/energyPlanner.ts:95-225 | the method computes exactly the optimisation function, so every property above holds of its result |
| PlannerState.EarliestStart | frontend/src/context/StudyPlannerContext.tsx:80-81 | the minimum start: some task starts then and none starts earlier |
| PlannerState.LatestStart | frontend/src/context/StudyPlannerContext.tsx:80-82 | the maximum start: some task starts then and none starts later |
| PlannerState.LastDay | frontend/src/context/StudyPlannerContext.tsx:85-89 | the last day of the strip is not before the first |
| PlannerState.CalendarRange | frontend/src/context/StudyPlannerContext.tsx:67-104 | one cell for an empty list, otherwise one cell per day from the earliest task's day to the latest task's day |
| PlannerState.CalculateCalendarRange | frontend/src/context/StudyPlannerContext.tsx:67-104 | the method computes exactly the calendar strip |
| PlannerState.WalkDays | frontend/src/context/StudyPlannerContext.tsx:84-102 | the while loop from midnight of the first day to the end of the last day makes one cell per day, each the cell of its day |
| PlannerState.CalendarOfNothing | frontend/src/context/StudyPlannerContext.tsx:68-77 | with no tasks the strip is today alone, at the current time, with no task |
| PlannerState.CalendarCells | frontend/src/context/StudyPlannerContext.tsx:85-101 | the k-th cell is midnight of the k-th day after the earliest task's day, it is marked exactly when a task starts that day, and the last cell is the latest task's day |
| PlannerState.CalendarCoversTasks | frontend/src/context/StudyPlannerContext.tsx:91-99 | every task's day has a marked cell |
| PlannerState.PersonalExams | frontend/src/context/StudyPlannerContext.tsx:120-141 | one exam per exam task, sorted by deadline |
| PlannerState.ExamsFromExamTasks | frontend/src/context/StudyPlannerContext.tsx:123-137 | every exam listed comes from an exam task (type "exam" or "exam" in the title, ignoring case), with the negated id, status "personal" and no marks |
| PlannerState.ExamTasksListed | frontend/src/context/StudyPlannerContext.tsx:123-142 | every exam task is listed |
| PlannerState.PlannerContext.FetchData | frontend/src/context/StudyPlannerContext.tsx:106-155 | without a user nothing changes; on success the tasks, the strip and the exams all come from the response and the context is loaded; on failure only loading ends |
| PlannerState.PlannerContext.Load | frontend/src/context/StudyPlannerContext.tsx:113-144 | the success path sets the tasks, the strip, the exams and the loaded flag |
| PlannerState.PlannerContext.EnsureDataLoaded | frontend/src/context/StudyPlannerContext.tsx:157-161 | when loaded or loading nothing changes; otherwise it is `FetchData`: logged out nothing changes, a successful fetch loads the tasks, the strip and the exams from the response, a failed one only ends loading |
| PlannerState.PlannerContext.UpdateTask | frontend/src/context/StudyPlannerContext.tsx:163-165 | every task with the id is replaced and nothing else changes |
| PlannerState.PlannerContext.UpdateTasksBulk | frontend/src/context/StudyPlannerContext.tsx:167-175 | every task whose id is among the updates becomes the first update with that id |
| PlannerState.PlannerContext.DeleteTask | frontend/src/context/StudyPlannerContext.tsx:177-179 | exactly the tasks with another id remain |
| PlannerState.PlannerContext.AddTask | frontend/src/context/StudyPlannerContext.tsx:181-183 | the task is appended |
| PlannerState.PlannerContext.SetUserEnergyPref | frontend/src/context/StudyPlannerContext.tsx:59 | the preference is set and nothing else changes |
| PlannerState.PlannerContext.Logout | frontend/src/context/StudyPlannerContext.tsx:186-191 | tasks and exams are cleared and the context is no longer loaded |
| Lists.FilterMember | frontend/src/context/StudyPlannerContext.tsx:178 | an element survives a filter exactly when it was there and passes |
| Lists.ReplaceByIdAt | frontend/src/context/StudyPlannerContext.tsx:164 | a replacement touches exactly the elements with the id |
| Lists.ReplaceByIdIdempotent | frontend/src/context/StudyPlannerContext.tsx:164 | replacing twice with the same element is replacing once |
| Lists.BulkReplaceAt | frontend/src/context/StudyPlannerContext.tsx:167-175 | an element whose id no update has is kept; otherwise it becomes the first update with its id |
| Lists.BulkReplaceSingle | frontend/src/context/StudyPlannerContext.tsx:163-175 | a bulk update with one task is the single update |
| Lists.BulkReplaceKeepsIds | frontend/src/context/StudyPlannerContext.tsx:167-175 | a bulk update keeps the ids in their order |
| Lists.RemoveByIdMember | frontend/src/context/StudyPlannerContext.tsx:177-179 | an element survives the removal exactly when it was there with another id |
| Lists.AddThenRemove | frontend/src/context/StudyPlannerContext.tsx:177-183 | appending an element and then removing its id gives the same list as removing the id without appending |
| PlannerPage.JsRem | frontend/src/pages/StudyPlanner.tsx:361 | JavaScript's remainder: Euclidean for non-negative operands, non-positive and truncated toward zero for negative ones |
| PlannerPage.FormatDurationRoundTrip | frontend/src/pages/StudyPlanner.tsx:359-363 | every non-negative duration label reads back as the same number of minutes, so no two durations share a label |
| PlannerPage.ReadHoursAndMinutes | frontend/src/pages/StudyPlanner.tsx:362 | "<h>h <m>m" reads back as h hours and m minutes |
| PlannerPage.ReadHours | frontend/src/pages/StudyPlanner.tsx:362 | "<h>h" reads back as h whole hours |
| PlannerPage.ReadMinutes | frontend/src/pages/StudyPlanner.tsx:362 | "<m>m" reads back as m minutes |
| PlannerPage.FormatNegativeDuration | frontend/src/pages/StudyPlanner.tsx:359-363 | a negative duration shows only its (non-positive) remainder in minutes, "0m" for whole negative hours |
| PlannerPage.DaysLeftRoundTrip | frontend/src/pages/StudyPlanner.tsx:605-608 | each day count, past days included, has its own badge, read back as that count |
| PlannerPage.NearLabels | frontend/src/pages/StudyPlanner.tsx:606-620 | "Today" exactly for 0 days, "Tomorrow" exactly for 1, and both are drawn urgent |
| PlannerPage.NewStatusToggles | frontend/src/pages/StudyPlanner.tsx:216 | the new status always differs from the current one, and toggling twice restores exactly "completed" and "pending" |
| PlannerPage.ToggleOnlyTarget | frontend/src/pages/StudyPlanner.tsx:218 | the optimistic toggle changes the status of the tasks with the id and nothing else |
| PlannerPage.MergeLaws | frontend/src/pages/StudyPlanner.tsx:299 | spreading an empty patch changes nothing, spreading a patch twice is spreading it once, and two patches in a row are their field-by-field combination |
| PlannerPage.RescheduleKeepsIds | frontend/src/pages/StudyPlanner.tsx:298-300 | a patch without an id keeps every task's id in place |
| PlannerPage.PlannerPage.Reload | frontend/src/pages/StudyPlanner.tsx:138-159 | `fetchTasks` after a failed request: the list is replaced when the reload succeeds and kept otherwise |
| PlannerPage.PlannerPage.FetchCalendarRange | frontend/src/pages/StudyPlanner.tsx:52-115 | the strip is computed from the response as in the planner context, and kept on failure |
| PlannerPage.PlannerPage.HandleTaskCompletion | frontend/src/pages/StudyPlanner.tsx:214-225 | the optimistic toggle stays on success; on failure the reloaded list replaces it when the reload succeeds |
| PlannerPage.PlannerPage.HandleDeleteTask | frontend/src/pages/StudyPlanner.tsx:227-241 | with nothing selected nothing happens; otherwise the task's id leaves the list and the modal closes, with a reload on failure |
| PlannerPage.PlannerPage.HandleRescheduleSave | frontend/src/pages/StudyPlanner.tsx:293-311 | with nothing selected nothing happens; otherwise the patch is spread over the task, the modal closes on success and stays open on failure, with a reload |
| PlannerPage.PlannerPage.HandleGenerateClick | frontend/src/pages/StudyPlanner.tsx:180-186 | the plan modal opens when a preference is known, the preference modal otherwise |
| PlannerPage.PlannerPage.HandleEnergySelect | frontend/src/pages/StudyPlanner.tsx:188-192 | the preference is kept, its modal closes and the plan modal opens |
| CreateTask.FormatDateIsIso | frontend/src/components/CreateTaskModal.tsx:14-19 | for four-digit years the local date is written as YYYY-MM-DD with two-digit month and day |
| CreateTask.FormatDateRoundTrip | frontend/src/components/CreateTaskModal.tsx:14-19 | the date field reads back, as the backend reads it, as the selected day |
| CreateTask.SubmitSends | frontend/src/components/CreateTaskModal.tsx:36-64 | a request goes out exactly when the trimmed title, the date and the time are non-empty and the time reads; it carries the form's title, date and colour and the time read |
| CreateTask.BlankTitleRefused | frontend/src/components/CreateTaskModal.tsx:40-43 | the form is refused as incomplete exactly when the title is only whitespace or the date or the time is empty |
| CreateTask.CreateTaskModal.constructor | frontend/src/components/CreateTaskModal.tsx:21-27 | the initial form: empty title, the selected day, "Revision", "bg-primary", 09:00, 60 minutes |
| CreateTask.CreateTaskModal.SyncDate | frontend/src/components/CreateTaskModal.tsx:30-34 | an open dialog takes the selected day's date and nothing else changes |
| CreateTask.CreateTaskModal.HandleSubmit | frontend/src/components/CreateTaskModal.tsx:36-89 | the payload is sent exactly when the checks pass; the form is reset and closed only when the server accepts; loading is off afterwards unless the form was refused before it started |
| QuizAuthoring.SpliceOneAt | frontend/src/components/QuizCreator.tsx:41-60 | `splice(i, 1)` removes exactly the element at i (counted from the end when negative) and keeps the rest in order; an index past either end removes nothing |
| QuizAuthoring.CorrectOnly | frontend/src/components/QuizCreator.tsx:70-76 | marking keeps the number of options |
| QuizAuthoring.CorrectOnlyExactlyOne | frontend/src/components/QuizCreator.tsx:70-76 | after marking an existing option exactly one option is correct, after marking a missing one none is, and no option's text changes |
| QuizAuthoring.DigitPrefix | frontend/src/components/QuizCreator.tsx:124 | the longest run of leading digits, a prefix of the text |
| QuizAuthoring.JsParseIntPrinted | frontend/src/components/QuizCreator.tsx:124 | `parseInt` reads every printed non-negative number back as itself |
| QuizAuthoring.NaNDurationPasses | frontend/src/components/QuizCreator.tsx:124-127 | a duration `parseInt` cannot read (NaN) passes the minimum-duration check |
| QuizAuthoring.QuestionError | frontend/src/components/QuizCreator.tsx:129-143 | a question's error names that question and is one of the three question errors |
| QuizAuthoring.FirstFailureNone | frontend/src/components/QuizCreator.tsx:129-143 | the question loop finds nothing exactly when every question passes |
| QuizAuthoring.FirstFailureFirst | frontend/src/components/QuizCreator.tsx:129-143 | the error reported is that of the first failing question |
| QuizAuthoring.FormCheckPasses | frontend/src/components/QuizCreator.tsx:116-143 | the form passes exactly when title and description are not blank, the duration is not below 1 and every question passes |
| QuizAuthoring.FormCheckFirstFailure | frontend/src/components/QuizCreator.tsx:116-143 | a question error is reported only when the earlier checks pass, and it is the first failing question's |
| QuizAuthoring.CheckForm | frontend/src/components/QuizCreator.tsx:116-143 | the early-returning loop computes exactly the form check |
| QuizAuthoring.ProjectKeeps | src/components/QuizCreator.tsx:109-115 | the projection keeps order, texts and marks, drops every other field, and leaves questions without other fields unchanged |
| QuizAuthoring.SubmitErrorText | src/components/QuizCreator.tsx:121-122 | the detail when it is a non-empty string, its JSON encoding when it is another value, the default text otherwise |
| QuizAuthoring.QuizCreator.constructor | frontend/src/components/QuizCreator.tsx:16-32 | the initial form: one blank question with two blank options, duration "30" |
| QuizAuthoring.QuizCreator.AddQuestion | frontend/src/components/QuizCreator.tsx:34-36 | a blank question is appended and the editor's shape (a question, two options each) is kept; the other form fields, the mode and both loading flags are unchanged |
| QuizAuthoring.QuizCreator.RemoveQuestion | frontend/src/components/QuizCreator.tsx:38-43 | the last remaining question is never removed; otherwise the spliced list, keeping the shape; the other form fields, the mode and both loading flags are unchanged |
| QuizAuthoring.QuizCreator.UpdateQuestion | frontend/src/components/QuizCreator.tsx:45-49 | only that question's text changes: every other question, the other form fields, the mode and both loading flags are unchanged |
| QuizAuthoring.QuizCreator.AddOption | frontend/src/components/QuizCreator.tsx:51-55 | a blank option is appended to that question only; the other form fields, the mode and both loading flags are unchanged |
| QuizAuthoring.QuizCreator.RemoveOption | frontend/src/components/QuizCreator.tsx:57-62 | a question keeps at least two options; otherwise the option is spliced out of that question only; the other form fields, the mode and both loading flags are unchanged |
| QuizAuthoring.QuizCreator.UpdateOption | frontend/src/components/QuizCreator.tsx:64-68 | only that option's text changes: every other option and question, the other form fields, the mode and both loading flags are unchanged |
| QuizAuthoring.QuizCreator.SetCorrectOption | frontend/src/components/QuizCreator.tsx:70-76 | that question's options are re-marked with exactly the chosen one correct; the other questions, the form fields, the mode and both loading flags are unchanged |
| QuizAuthoring.QuizCreator.HandleAiGenerate | frontend/src/components/QuizCreator.tsx:78-113 | a missing subject or topic only sets the error; success replaces the questions, returns to manual mode and fills an empty title and description; failure shows the detail or the default text and keeps the questions, title, description and mode |
| QuizAuthoring.QuizCreator.HandleSubmit | frontend/src/components/QuizCreator.tsx:116-162 | the first failing check's message and no request, or the form posted with an empty deadline as null; the dialog closes only on success |
| QuizAuthoring.QuizCreator.Post | frontend/src/components/QuizCreator.tsx:145-161 | loading ends, a failure's text is shown, and success closes |
| QuizAuthoring.QuizCreator.HandleSubmitProjected | src/components/QuizCreator.tsx:74-126 | the same checks; the projected questions are posted, and a failure shows the server's detail |
| QuizSession.FormatTimeRoundTrip | frontend/src/pages/student/QuizActive.tsx:111-115 | every clock shown reads back as the seconds it shows, so no two times look alike |
| QuizSession.ReadClockPieces | frontend/src/pages/student/QuizActive.tsx:114 | minutes and two-digit seconds below 60 read back as their total |
| QuizSession.ClockPieces | frontend/src/pages/student/QuizActive.tsx:114 | the clock splits at its one colon into minutes and seconds |
| QuizSession.Tick | frontend/src/pages/student/QuizActive.tsx:75-82 | at one second or less the clock stops at zero and submits; otherwise it goes down by one and stays positive |
| QuizSession.TicksToSubmitIs | frontend/src/pages/student/QuizActive.tsx:72-83 | a clock started at n seconds submits on its n-th tick, and on the first when n is not positive |
| QuizSession.Lookup | frontend/src/pages/student/QuizActive.tsx:118 | a question has an answer exactly when some entry is for it |
| QuizSession.SelectHead | frontend/src/pages/student/QuizActive.tsx:118 | choosing an option gives a non-empty answer list whose ids are the chosen question's or were already there |
| QuizSession.SelectOrdered | frontend/src/pages/student/QuizActive.tsx:117-119 | choosing an option keeps one entry per question, in increasing question order, as the object's integer keys are enumerated |
| QuizSession.SelectLookup | frontend/src/pages/student/QuizActive.tsx:118 | after choosing o for q, q's answer is o and every other question's answer is as before |
| QuizSession.SelectCount | frontend/src/pages/student/QuizActive.tsx:118-122 | a first answer adds one entry; a changed answer adds none |
| QuizSession.QuizSession.constructor | frontend/src/pages/student/QuizActive.tsx:26-36 | the page starts loading, with no quiz, no answers, no switches and a stopped clock at zero |
| QuizSession.QuizSession.Loaded | frontend/src/pages/student/QuizActive.tsx:52-74 | the clock is set to the duration in seconds, loading ends, and the timer starts unless the clock shows zero; the answers, dialog, message and switch count are unchanged |
| QuizSession.QuizSession.SelectOption | frontend/src/pages/student/QuizActive.tsx:117-119 | the question's answer becomes the option and no other answer changes; nothing else on the page changes |
| QuizSession.QuizSession.SubmitClick | frontend/src/pages/student/QuizActive.tsx:121-127 | with nothing answered a warning is shown instead of the confirmation; nothing else on the page changes |
| QuizSession.QuizSession.SubmitClickUnchecked | src/pages/student/QuizActive.tsx:82-84 | the older page always asks for confirmation; nothing else on the page changes |
| QuizSession.QuizSession.VisibilityHidden | frontend/src/pages/student/QuizActive.tsx:90-108 | while the quiz is shown and not being submitted, hiding the page counts a switch and shows the warning; otherwise nothing happens |
| QuizSession.QuizSession.Post | frontend/src/pages/student/QuizActive.tsx:145-160 | success leaves the page; a failure shows the detail or the default text, leaves on status 400 and allows a retry |
| QuizSession.QuizSession.SubmitQuiz | frontend/src/pages/student/QuizActive.tsx:134-162 | nothing while a submission is in flight; otherwise the current answers are posted with the manner and the switch count, and the outcome is Post's: success leaves with submitting still set, a failure shows its text, leaves on 400 and clears submitting; the dialog and the answers are unchanged |
| QuizSession.QuizSession.ConfirmSubmit | frontend/src/pages/student/QuizActive.tsx:129-132 | the confirm button closes the dialog, then makes a manual submission with SubmitQuiz's outcome |
| QuizSession.QuizSession.ConfirmSubmitAnswers | src/pages/student/QuizActive.tsx:86-89 | the older confirm button closes the dialog, then submits the answers alone with SubmitAnswers's outcome |
| QuizSession.QuizSession.SubmitAnswers | src/pages/student/QuizActive.tsx:91-117 | nothing while a submission is in flight; otherwise the answers alone are posted, with Post's outcome; the dialog and the answers are unchanged |
| QuizSession.QuizSession.TimerTick | frontend/src/pages/student/QuizActive.tsx:71-87 | each tick counts down; the timeout stops the clock and posts the current answers, read through the ref, as an automatic submission: success leaves the page, a failure shows its text, leaves on 400 and clears submitting; the dialog and loading flags are unchanged |
| QuizSession.QuizSession.TimerTickCaptured | src/pages/student/QuizActive.tsx:51-69 | the older page's timeout stops the clock and posts the answers of the render in which the timer started, with Post's outcome; the dialog and loading flags are unchanged |
| QuizSession.TimeoutDropsAnswers | src/pages/student/QuizActive.tsx:51-102 | in the older page, a question answered before the clock runs out is missing from the automatic submission |
| QuizSession.TimeoutKeepsAnswers | frontend/src/pages/student/QuizActive.tsx:71-87 | in the current page the same timeout posts the answer given |
| QuizContext.NewestFirstOrder | frontend/src/context/QuizContext.tsx:57-60 | the sorted list is the reply reordered, newest first, and quizzes created at the same instant keep the reply's order |
| QuizContext.EditsByIdOnly | frontend/src/context/QuizContext.tsx:71-77 | an update replaces exactly the quizzes with its id and keeps every id in place; a removal keeps exactly the quizzes with another id |
| QuizContext.QuizStore.FetchQuizzes | frontend/src/context/QuizContext.tsx:46-69 | a request is made exactly when nothing was fetched yet or the refresh is forced; success stores the reply newest first and marks it fetched; failure keeps the list; loading ends |
| QuizContext.QuizStore.UpdateQuizState | frontend/src/context/QuizContext.tsx:71-73 | every quiz with the id is replaced and nothing else changes |
| QuizContext.QuizStore.RemoveQuiz | frontend/src/context/QuizContext.tsx:75-77 | exactly the quizzes with another id remain |
| QuizContext.QuizStore.Logout | frontend/src/context/QuizContext.tsx:39-44 | the cache is emptied and the next fetch is made |
| TeacherContext.UpdateTeacherOnly | frontend/src/context/TeacherContext.tsx:57-59 | an update replaces exactly the teachers with its id, keeps every id in place, and repeating it changes nothing more |
| TeacherContext.TeacherStore.FetchTeachers | frontend/src/context/TeacherContext.tsx:40-55 | a request is made exactly when nothing was fetched yet or the refresh is forced; success stores the reply and marks it fetched; failure keeps the list; loading ends |
| TeacherContext.TeacherStore.UpdateTeacherState | frontend/src/context/TeacherContext.tsx:57-59 | every teacher with the id is replaced and nothing else changes |
| TeacherContext.TeacherStore.Logout | frontend/src/context/TeacherContext.tsx:33-38 | the cache is emptied and the next fetch is made |
| QuizLists.StudentOrderShown | frontend/src/pages/student/StudentQuizList.tsx:74-83 | the shown list is a reordering in which no attempted quiz precedes an unattempted one, and within each group newer quizzes come first |
| QuizLists.CompletedCount | frontend/src/pages/student/StudentQuizList.tsx:87 | the count never exceeds the number of quizzes |
| QuizLists.CompletedCountExact | frontend/src/pages/student/StudentQuizList.tsx:86-88 | everything counts as completed exactly when every quiz is attempted, nothing exactly when none is |
| QuizLists.SearchKeeps | frontend/src/pages/student/StudentQuizList.tsx:108-111 | a quiz is listed exactly when the query occurs in its title or description, ignoring ASCII case; an empty query lists everything in order |
| QuizLists.ButtonRule | frontend/src/pages/student/StudentQuizList.tsx:191-268 | the button is dead exactly for an expired quiz not attempted; an attempted quiz always leads to its result; a startable live quiz is exactly an available one |
| QuizLists.MergeStatus | src/pages/student/StudentQuizList.tsx:32-39 | the status reply's fields override the quiz's, a failed request gives status 'not_started', and id, title and date are kept |
| QuizLists.MergeAll | src/pages/student/StudentQuizList.tsx:32-39 | each quiz is merged with its own status reply, in order |
| QuizLists.FailedStatusStartable | src/pages/student/StudentQuizList.tsx:36-110 | a quiz whose status request failed can still be started |
| QuizLists.OlderQuizList.FetchQuizzes | src/pages/student/StudentQuizList.tsx:26-59 | success shows the merged quizzes in the list order, as many as the reply; failure keeps the list; loading ends |
| AdaptiveQuiz.PlayScoreAndStreak | src/pages/AdaptiveQuiz.tsx:34-46 | over a run of answers the score grows by ten per right answer, and the streak counts the right answers since the last wrong one, added to the streak carried in when there was no wrong one |
| AdaptiveQuiz.PlayDifficulty | src/pages/AdaptiveQuiz.tsx:39-46 | after a wrong answer the game is easy, after two right answers in a row it is hard, and a single right answer after a wrong one keeps the difficulty |
| AdaptiveQuiz.PlayProgress | src/pages/AdaptiveQuiz.tsx:48-52 | from the first question, answering k of n questions shows question k, and answering all n shows the result on the last question |
| AdaptiveQuiz.PlayLast | src/pages/AdaptiveQuiz.tsx:34-53 | a run of answers is its shorter run followed by the last answer |
| AdaptiveQuiz.CountRightLast | src/pages/AdaptiveQuiz.tsx:39-41 | the right answers of a run are those before the last plus the last if right |
| AdaptiveQuiz.AdaptiveGame.constructor | src/pages/AdaptiveQuiz.tsx:7-20 | the start screen, question 0, score 0, medium difficulty, no streak, no questions |
| AdaptiveQuiz.AdaptiveGame.QuestionsLoaded | src/pages/AdaptiveQuiz.tsx:22-32 | the questions arrive and the game's state is untouched |
| AdaptiveQuiz.AdaptiveGame.Begin | src/pages/AdaptiveQuiz.tsx:81 | only the stage changes, to playing |
| AdaptiveQuiz.AdaptiveGame.HandleAnswer | src/pages/AdaptiveQuiz.tsx:34-53 | with no questions nothing happens; otherwise the answer is right exactly when the chosen option is the correct string, and the state becomes the scored and advanced one, the shown question staying in range |
| AdaptiveQuiz.AdaptiveGame.PlayAgain | src/pages/AdaptiveQuiz.tsx:159-163 | back to the start screen at question 0 with no score; streak and difficulty stay |
| PasswordStrength.Strength | frontend/src/components/common/PasswordInput.tsx:46 | the strength is at most 4, exactly 4 when all requirements hold and 0 when none does |
| PasswordStrength.LabelColorAgree | frontend/src/components/common/PasswordInput.tsx:50-62 | the label and the colour are read off the same band, so no strength shows one band's label with another's colour |
| PasswordStrength.StrongIff | frontend/src/components/common/PasswordInput.tsx:38-62 | "Strong" exactly when the password has 8 characters, a digit, a special character and an upper-case letter; "Enter password" exactly when it has none of these |
| PasswordStrength.StrengthGrows | frontend/src/components/common/PasswordInput.tsx:38-46 | a longer password never has a lower strength than either of its parts |
| PasswordStrength.Effect | frontend/src/components/common/PasswordInput.tsx:35-48 | with the meter off nothing changes; otherwise the requirements are those of the value and the strength counts them |
| PasswordStrength.EffectsConsistent | frontend/src/components/common/PasswordInput.tsx:27-48 | whatever sequence of values and switches the effect runs on, the strength shown counts the requirements shown |
| Signup.SignupErrorIff | src/pages/auth/SignupPage.tsx:23-44 | a submission goes through exactly when the passwords agree and have at least 8 characters; a mismatch is reported first, even for a short password |
| Signup.SignupForm.constructor | src/pages/auth/SignupPage.tsx:9-16 | all fields empty, no error, not loading |
| Signup.SignupForm.HandleChange | src/pages/auth/SignupPage.tsx:18-21 | the edited field takes the value, every other field keeps its own, and the error is cleared |
| Signup.SignupForm.HandleSubmit | src/pages/auth/SignupPage.tsx:23-44 | the error shows the first failing check; only when both pass does loading start and the redirect get scheduled; no field changes |
| Signup.SignupForm.RedirectFired | src/pages/auth/SignupPage.tsx:39-42 | loading ends and the dashboard opens |
| TeachersPage.CharAt0 | frontend/src/pages/student/Teachers.tsx:17-18 | the first character, or nothing for an empty name |
| TeachersPage.AvatarOf | frontend/src/pages/student/Teachers.tsx:8-30 | the initial is shown exactly when there is no URL, an empty one, or the image failed, and it is the name's first character |
| TeachersPage.AvatarImage | frontend/src/pages/student/Teachers.tsx:10-12 | an image comes from the URL itself when it starts with "http", else from the API base plus the URL; with an http base every image address is absolute |
| TeachersPage.FilteredTeachersKeeps | frontend/src/pages/student/Teachers.tsx:81-84 | a teacher is listed exactly when the query occurs in the name, or in the listed subjects, ignoring ASCII case; an empty query lists everyone in order |
| TeachersPage.FailedToggleRestores | frontend/src/pages/student/Teachers.tsx:59-78 | a failed toggle gives back exactly the list before the click, and the in-flight ids are as before |
| TeachersPage.SucceededToggleFlips | frontend/src/pages/student/Teachers.tsx:59-60 | a successful toggle flips every copy of the teacher and no other teacher |
| TeachersPage.TeachersPage.BeginToggle | frontend/src/pages/student/Teachers.tsx:53-69 | a click on a teacher already in flight does nothing; otherwise the id is marked in flight, the teacher is flipped in the store and the follow or unfollow endpoint of the state before the click is called |
| TeachersPage.TeachersPage.FinishToggle | frontend/src/pages/student/Teachers.tsx:70-78 | success shows "Followed"/"Unfollowed" with the name; failure shows the error and restores the teacher; the id leaves the in-flight list either way |
| QuizManagement.ExpiryRule | frontend/src/pages/teacher/QuizManagement.tsx:326-329 | no deadline or an empty one never expires; otherwise expired exactly when now is past the deadline; expired stays expired later |
| QuizManagement.ShownRowsExact | frontend/src/pages/teacher/QuizManagement.tsx:232-236 | a row is drawn exactly when it has a real submission time (not missing, empty or the epoch) and attempted or scored something; rows keep the server's order |
| QuizManagement.AccuracyBands | frontend/src/pages/teacher/QuizManagement.tsx:179-181 | green from 70, yellow from 40 below 70, red below 40, and a higher accuracy never gets a worse colour |
| QuizManagement.RemovalExact | frontend/src/pages/teacher/QuizManagement.tsx:359-360 | the optimistic removal keeps exactly the quizzes with another id, and removes nothing when none has the id |
| QuizManagement.QuizManagementPage.constructor | frontend/src/pages/teacher/QuizManagement.tsx:315-324 | no quizzes, loading, no modal, no selection, no toast |
| QuizManagement.QuizManagementPage.StartFetch | frontend/src/pages/teacher/QuizManagement.tsx:331-333 | the full loader for a foreground fetch with nothing shown, the refresh indicator otherwise |
| QuizManagement.QuizManagementPage.FinishFetch | frontend/src/pages/teacher/QuizManagement.tsx:335-344 | the list on success, the old list on failure, both indicators off |
| QuizManagement.QuizManagementPage.HandleDeleteClick | frontend/src/pages/teacher/QuizManagement.tsx:350-353 | the quiz is selected and the modal opens |
| QuizManagement.QuizManagementPage.ConfirmDelete | frontend/src/pages/teacher/QuizManagement.tsx:355-365 | without a selection (or with id 0) nothing happens; otherwise the quiz leaves the list, the modal closes and the previous list is kept for the answer |
| QuizManagement.QuizManagementPage.DeleteSettled | frontend/src/pages/teacher/QuizManagement.tsx:366-377 | success shows the deleted toast; failure restores the list exactly as before the click and shows the error toast |
| EnergyPlanner.LockedOutputFromInput | frontend/src/utils/energyPlanner.ts:147-219 | every locked task in the optimised schedule is an input task at its own start |
| EnergyPlanner.LockedInputInOutput | frontend/src/utils/energyPlanner.ts:147-219 | every locked input task is in the optimised schedule at its own start |
| Lists.ReplaceByIdRevert | frontend/src/pages/student/Teachers.tsx:59-75 | writing back the copy taken before an optimistic update restores the list exactly, wherever that id occurs |
| Lists.UpdateByIdAt | frontend/src/pages/StudyPlanner.tsx:216-218 | an update by id rewrites exactly the elements carrying the id and keeps every other one |
| PlannerState.PlannerContext.constructor | frontend/src/context/StudyPlannerContext.tsx:56-61 | no tasks, exams or calendar days, no energy preference, neither loaded nor loading |
| QuizContext.QuizStore.constructor | frontend/src/context/QuizContext.tsx:33-36 | no quizzes, not loading, not fetched |
| TeacherContext.TeacherStore.constructor | frontend/src/context/TeacherContext.tsx:27-30 | no teachers, not loading, not fetched |
| PlannerPage.PlannerPage.constructor | frontend/src/pages/StudyPlanner.tsx:28-47 | no tasks, no selection for deleting or rescheduling, no preference, modals closed |
| QuizLists.OlderQuizList.constructor | src/pages/student/StudentQuizList.tsx:18-19 | no quizzes, loading |
| TeachersPage.TeachersPage.constructor | frontend/src/pages/student/Teachers.tsx:34-37 | nothing in flight, empty search, no toast |

## Left out

- Gemini: the model listing and the generation call are not modelled. The listing enters `SelectModel` as a parameter. The reply enters `GenerateStudyPlan` as an already parsed list of items, so the prompt text and the JSON and markdown stripping are left out.
- StudyPlannerApi.ItemStep: a reply item's `start_time_offset_days` and `start_hour` are an integer, JSON null or missing. Other JSON values are not modelled: a fractional offset (which `timedelta` accepts, landing at a time of day that the date comparison floors), a fractional hour (which `int` truncates), a numeric string hour (which `int` parses), a boolean, or a null or non-string title. `DefaultsToNine`, `StageItems` and `GenerateStudyPlan` hold for items of the modelled shapes only.
- I/O: exam file upload and download, avatar files and `console` logging are left out. HTTP requests are parameters: the reply, or whether the request failed.
- Authentication, tokens and hashing: the caller enters as a `User` value.
- The database is reduced to the rows the endpoints read and write. SQLAlchemy sessions are reduced to staging, one all-or-nothing commit that assigns increasing ids, and rollback. The Exam and ExamSubmission model classes are not part of this model; their fields are those the endpoints use.
- Floating point: question accuracy is a `real`. The average accuracy, progress percentages, `toFixed` hours and `Math.round` displays are left out.
- Timezones, daylight saving and ISO timestamp strings: times are local minutes. JavaScript `Date` parsing of a server string is a parameter (`parse`, or the parsed value). An unparseable `created_at` (NaN in the comparator) is not modelled. Dates before year 1 are not modelled.
- Unicode: `length` is counted in characters, not UTF-16 code units. Lower-casing, `trim` and `strip` cover ASCII letters and ASCII whitespace (plus no-break space for `trim`).
- PlanGenerator.BoundaryStep: the compression bounds are computed as exact integer quotients `i * T / D`. The source computes `int(i * len(topic_list) / total_days)` with floating-point division and truncation. The two agree while `T * D` stays below 2^53, because the float quotient then rounds by less than the gap `1/D` to the next integer. Larger plans are not modelled.
- QuizAuthoring.JsParseInt: the `0x` hexadecimal prefix of `parseInt` is not modelled, because the duration field is a number input.
- Timers and concurrency are modelled as explicit steps, not as scheduled callbacks:
  - the 500 ms delay before the adaptive game advances (a second click within it is not modelled);
  - the 1500 ms simulated sign-up, whose end is the `RedirectFired` step;
  - the quiz page's 1500 ms loading delay;
  - the visibility listener, modelled as the `VisibilityHidden` step;
  - interleavings of concurrent requests.
- QuizActive's `POST /start` call and the quiz-list refresh after a submission are left out; only their outcomes enter the model.
- Aliasing: React state is copied before each update, so each container is a `seq` field that its methods reassign. Object identity is not modelled.
- QuizManagement treats a selected id of 0 as no selection, because the source tests the id for truthiness.
- `confirmDeleteExam` on the planner page and the exam list's own fetch are left out; the planner's `refreshData` is the same request as `FetchData`.
- Signup.SignupForm.HandleSubmit: the browser's own form checks, which run before the handler, are not modelled: the four `required` inputs, the email input's `type="email"` format check, and the submit button's `disabled={isLoading}`. The model lets the handler run on empty or malformed fields, and while loading. In the browser, an empty password never reaches the length check.
- CreateTask.CreateTaskModal.HandleSubmit: the same browser checks are not modelled here either: the `required` title, date and time inputs and the `disabled={loading}` submit button. The handler's own blank-title check is modelled; the browser's refusal of an empty field before the handler runs is not.
- Rendering: JSX, animations, modals beyond their open flags, and toasts beyond their message and kind are left out.
- The `/reoptimize` and `/tasks` endpoints that the planner page calls are not part of this model. Their replies are parameters.

## Findings

| source | as written | input that shows it | evidently intended | confidence | as-written member | corrected member |
|---|---|---|---|---|---|---|
| src/pages/student/QuizActive.tsx:51-102 | the timer effect depends only on `loading`, so its interval keeps the `submitQuiz` of the render in which it started, whose `answers` is still `{}`; the automatic submission at time-out posts an empty answer list | a one-minute quiz, answer 7 chosen for question 1, the clock left to run out: the posted body is `{answers: []}` | the automatic submission posts the answers chosen so far, as the current page does through `answersRef` | not executed; high | QuizSession.QuizSession.TimerTickCaptured, QuizSession.TimeoutDropsAnswers | QuizSession.QuizSession.TimerTick, QuizSession.TimeoutKeepsAnswers |
| backend/api/study_planner.py:282-288 | `complete_ai_task` looks the task up by `student_id == student_profile.id`, but the plan endpoints store the user id in `student_id` (study_planner.py:88 and 255) | user 5 whose student profile has id 2 owns task 10 (stored with student_id 5): completing task 10 returns 404 | the owner of a task can complete it: compare with the id the generators store | not executed; medium | StudyPlannerApi.CompleteAiTask, StudyPlannerApi.OwnerLockedOut | StudyPlannerApi.CompleteOwnAiTask, StudyPlannerApi.OwnerCanComplete |
