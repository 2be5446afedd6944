/** The teacher's quiz editor, in its two versions: the questions and options
    edited in place, the checks run before a quiz is posted, the AI fill-in, and
    what is posted. */
module QuizAuthoring {
  import opened Wrappers
  import opened Text

  /** An option as the editor holds it. `extra` stands for any further JSON fields
      an object carries (those the AI generator returns, say); the editor's own
      objects have none. */
  datatype Choice = Choice(text: string, isCorrect: bool, extra: map<string, string>)
  datatype Question = Question(text: string, options: seq<Choice>, extra: map<string, string>)

  const BlankChoice := Choice("", false, map[])
  const NewQuestion := Question("", [BlankChoice, BlankChoice], map[])

  /** The invariant the editing buttons keep: at least one question, and at least
      two options to every question. */
  predicate Shaped(qs: seq<Question>) {
    |qs| >= 1 && forall i :: 0 <= i < |qs| ==> |qs[i].options| >= 2
  }

  // ---------------------------------------------------------------------------
  // Array helpers

  /** Where `splice(i, 1)` starts: a negative index counts from the end. */
  function SpliceStart(len: nat, i: int): (k: nat)
    ensures k <= len
  {
    if i < 0 then (if len + i < 0 then 0 else len + i) else if i > len then len else i
  }

  /** `a.splice(i, 1)`: removes the element at the start position, if there is one. */
  function SpliceOne<T>(s: seq<T>, i: int): (r: seq<T>)
  {
    var k := SpliceStart(|s|, i);
    if k < |s| then s[..k] + s[k + 1..] else s
  }

  /** One element goes exactly when the start falls inside the list; the others
      keep their order. */
  lemma SpliceOneAt<T>(s: seq<T>, i: int)
    ensures var k := SpliceStart(|s|, i);
            (k < |s| ==> |SpliceOne(s, i)| == |s| - 1
                         && (forall j :: 0 <= j < k ==> SpliceOne(s, i)[j] == s[j])
                         && (forall j :: k <= j < |s| - 1 ==> SpliceOne(s, i)[j] == s[j + 1]))
            && (k == |s| ==> SpliceOne(s, i) == s)
    ensures 0 <= i < |s| ==> |SpliceOne(s, i)| == |s| - 1
    ensures -|s| <= i < 0 ==> |SpliceOne(s, i)| == |s| - 1 && SpliceStart(|s|, i) == |s| + i
  {
  }

  /** Every option's mark becomes `idx === oIndex`. */
  function CorrectOnly(opts: seq<Choice>, o: int): (r: seq<Choice>)
    ensures |r| == |opts|
  {
    seq(|opts|, k requires 0 <= k < |opts| => opts[k].(isCorrect := k == o))
  }

  function CorrectCount(opts: seq<Choice>): nat
    decreases |opts|
  {
    if opts == [] then 0
    else CorrectCount(opts[..|opts| - 1]) + (if opts[|opts| - 1].isCorrect then 1 else 0)
  }

  lemma {:induction false} CorrectCountMarked(t: seq<Choice>, o: int, n: nat)
    requires n <= |t|
    requires forall k :: 0 <= k < |t| ==> (t[k].isCorrect <==> k == o)
    ensures CorrectCount(t[..n]) == (if 0 <= o < n then 1 else 0)
    decreases n
  {
    if n > 0 {
      CorrectCountMarked(t, o, n - 1);
      assert t[..n][..n - 1] == t[..n - 1];
    }
  }

  /** After marking option o, exactly that option is correct (and none is when o is
      not an option of the question); texts and order are kept. */
  lemma CorrectOnlyExactlyOne(opts: seq<Choice>, o: int)
    ensures 0 <= o < |opts| ==> CorrectCount(CorrectOnly(opts, o)) == 1
    ensures !(0 <= o < |opts|) ==> CorrectCount(CorrectOnly(opts, o)) == 0
    ensures forall k :: 0 <= k < |opts| ==> CorrectOnly(opts, o)[k].text == opts[k].text
  {
    var t := CorrectOnly(opts, o);
    CorrectCountMarked(t, o, |t|);
    assert t[..|t|] == t;
  }

  // ---------------------------------------------------------------------------
  // Validation

  datatype FormError =
    | MissingText
    | ShortDuration
    | EmptyQuestion(q: nat)
    | EmptyOption(q: nat)
    | NoCorrect(q: nat)

  /** The message shown for each failure; questions are counted from 1. */
  function Message(e: FormError): string {
    match e
    case MissingText => "Please fill in the quiz title and description."
    case ShortDuration => "Duration must be at least 1 minute."
    case EmptyQuestion(q) => "Question " + NatToString(q + 1) + " cannot be empty."
    case EmptyOption(q) => "All options for Question " + NatToString(q + 1) + " must be filled."
    case NoCorrect(q) => "Please ensure Question " + NatToString(q + 1) + " has a correct answer marked."
  }

  /** `parseInt(s)`: leading blanks, an optional sign, then the longest run of
      digits; None where JavaScript gives NaN. */
  function JsParseInt(s: string): Option<int> {
    var t := TrimStart(s, IsJsSpace);
    var negative := t != [] && t[0] == '-';
    var u := if t != [] && (t[0] == '-' || t[0] == '+') then t[1..] else t;
    var d := DigitPrefix(u);
    if d == [] then None
    else if negative then Some(-(DigitsValue(d) as int))
    else Some(DigitsValue(d))
  }

  function DigitPrefix(s: string): (r: string)
    ensures AllDigits(r) && |r| <= |s| && r == s[..|r|]
    decreases |s|
  {
    if s != [] && IsDigit(s[0]) then [s[0]] + DigitPrefix(s[1..]) else []
  }

  lemma {:induction false} DigitPrefixAll(s: string)
    requires AllDigits(s)
    ensures DigitPrefix(s) == s
    decreases |s|
  {
    if s != [] {
      DigitPrefixAll(s[1..]);
      assert s == [s[0]] + s[1..];
    }
  }

  /** `parseInt` reads back every printed number. */
  lemma JsParseIntPrinted(n: nat)
    ensures JsParseInt(NatToString(n)) == Some(n)
  {
    var s := NatToString(n);
    assert !IsJsSpace(s[0]) by { assert IsDigit(s[0]); }
    assert s[0] != '-' && s[0] != '+' by { assert IsDigit(s[0]); }
    DigitPrefixAll(s);
    NatToStringRoundTrip(n);
  }

  /** `parseInt(duration) < 1`: NaN compares false, so an unreadable duration passes. */
  predicate TooShort(duration: string) {
    var p := JsParseInt(duration);
    p.Some? && p.value < 1
  }

  /** A duration that does not start with a number (after blanks and a sign) reads
      as NaN, and is not rejected. */
  lemma NaNDurationPasses(duration: string)
    requires var t := TrimStart(duration, IsJsSpace);
             t == [] || (!IsDigit(t[0]) && t[0] != '-' && t[0] != '+')
    ensures JsParseInt(duration) == None && !TooShort(duration)
  {
  }

  predicate BlankOption(opts: seq<Choice>) {
    exists k :: 0 <= k < |opts| && JsTrim(opts[k].text) == ""
  }

  predicate SomeCorrect(opts: seq<Choice>) {
    exists k :: 0 <= k < |opts| && opts[k].isCorrect
  }

  /** The three checks on question i, in order. */
  function QuestionError(q: Question, i: nat): (r: Option<FormError>)
    ensures r.Some? ==> r.value.EmptyQuestion? || r.value.EmptyOption? || r.value.NoCorrect?
    ensures r.Some? ==> r.value.q == i
  {
    if JsTrim(q.text) == "" then Some(EmptyQuestion(i))
    else if BlankOption(q.options) then Some(EmptyOption(i))
    else if !SomeCorrect(q.options) then Some(NoCorrect(i))
    else None
  }

  /** The first failure the check finds from position i on, as a `for` loop with
      early returns finds it. */
  function FirstFailure<T, E>(xs: seq<T>, check: (T, nat) -> Option<E>, i: nat): Option<E>
    decreases |xs| - i
  {
    if i >= |xs| then None
    else if check(xs[i], i).Some? then check(xs[i], i)
    else FirstFailure(xs, check, i + 1)
  }

  lemma {:induction false} FirstFailureNone<T, E>(xs: seq<T>, check: (T, nat) -> Option<E>, i: nat)
    requires i <= |xs|
    ensures FirstFailure(xs, check, i) == None <==> forall j :: i <= j < |xs| ==> check(xs[j], j) == None
    decreases |xs| - i
  {
    if i < |xs| {
      FirstFailureNone(xs, check, i + 1);
    }
  }

  lemma {:induction false} FirstFailureFirst<T, E>(xs: seq<T>, check: (T, nat) -> Option<E>, i: nat)
    requires i <= |xs|
    requires FirstFailure(xs, check, i).Some?
    ensures exists j :: i <= j < |xs| && check(xs[j], j) == FirstFailure(xs, check, i)
                        && forall k :: i <= k < j ==> check(xs[k], k) == None
    decreases |xs| - i
  {
    if check(xs[i], i).None? {
      FirstFailureFirst(xs, check, i + 1);
      var j :| i + 1 <= j < |xs| && check(xs[j], j) == FirstFailure(xs, check, i + 1)
                && forall k :: i + 1 <= k < j ==> check(xs[k], k) == None;
      assert forall k :: i <= k < j ==> check(xs[k], k) == None;
    } else {
      assert check(xs[i], i) == FirstFailure(xs, check, i);
    }
  }

  /** All of `handleSubmit`'s checks, in order: the first failure, or None. */
  function FormCheck(title: string, description: string, duration: string, qs: seq<Question>): Option<FormError> {
    if JsTrim(title) == "" || JsTrim(description) == "" then Some(MissingText)
    else if TooShort(duration) then Some(ShortDuration)
    else FirstFailure(qs, QuestionError, 0)
  }

  /** A form passes exactly when every rule holds. */
  lemma FormCheckPasses(title: string, description: string, duration: string, qs: seq<Question>)
    ensures FormCheck(title, description, duration, qs) == None <==>
              JsTrim(title) != "" && JsTrim(description) != "" && !TooShort(duration)
              && forall j :: 0 <= j < |qs| ==> QuestionError(qs[j], j) == None
  {
    FirstFailureNone(qs, QuestionError, 0);
  }

  /** A question failure is reported for the first failing question, after the
      title, description and duration checks have passed. */
  lemma FormCheckFirstFailure(title: string, description: string, duration: string, qs: seq<Question>)
    requires FormCheck(title, description, duration, qs).Some?
    ensures var e := FormCheck(title, description, duration, qs).value;
            (e.EmptyQuestion? || e.EmptyOption? || e.NoCorrect?) ==>
              JsTrim(title) != "" && JsTrim(description) != "" && !TooShort(duration)
              && e.q < |qs| && QuestionError(qs[e.q], e.q) == Some(e)
              && forall j :: 0 <= j < e.q ==> QuestionError(qs[j], j) == None
  {
    var e := FormCheck(title, description, duration, qs).value;
    if e.EmptyQuestion? || e.EmptyOption? || e.NoCorrect? {
      FirstFailureFirst(qs, QuestionError, 0);
      var j :| 0 <= j < |qs| && QuestionError(qs[j], j) == Some(e)
                && forall k :: 0 <= k < j ==> QuestionError(qs[k], k) == None;
      assert e.q == j;
    }
  }

  /** The `for` loop of `handleSubmit` with its early returns. */
  method CheckForm(title: string, description: string, duration: string, qs: seq<Question>)
    returns (err: Option<FormError>)
    ensures err == FormCheck(title, description, duration, qs)
  {
    if JsTrim(title) == "" || JsTrim(description) == "" {
      return Some(MissingText);
    }
    if TooShort(duration) {
      return Some(ShortDuration);
    }
    var i := 0;
    while i < |qs|
      invariant 0 <= i <= |qs|
      invariant FirstFailure(qs, QuestionError, 0) == FirstFailure(qs, QuestionError, i)
    {
      var q := qs[i];
      if JsTrim(q.text) == "" {
        return Some(EmptyQuestion(i));
      }
      if BlankOption(q.options) {
        return Some(EmptyOption(i));
      }
      if !SomeCorrect(q.options) {
        return Some(NoCorrect(i));
      }
      i := i + 1;
    }
    return None;
  }

  // ---------------------------------------------------------------------------
  // What is posted

  /** The body of `POST /api/quiz/`. A duration `parseInt` cannot read is sent as
      null (None). */
  datatype QuizPayload = QuizPayload(title: string, description: string, durationMinutes: Option<int>,
                                     deadline: Option<string>, questions: seq<Question>)

  /** The older form posts only text and options, and of each option only its text
      and mark. */
  function Project(qs: seq<Question>): (r: seq<Question>)
    ensures |r| == |qs|
  {
    seq(|qs|, i requires 0 <= i < |qs| =>
      Question(qs[i].text,
               seq(|qs[i].options|, k requires 0 <= k < |qs[i].options| =>
                 Choice(qs[i].options[k].text, qs[i].options[k].isCorrect, map[])),
               map[]))
  }

  predicate Plain(qs: seq<Question>) {
    forall i :: 0 <= i < |qs| ==>
      qs[i].extra == map[] && forall k :: 0 <= k < |qs[i].options| ==> qs[i].options[k].extra == map[]
  }

  /** The projection keeps order, texts and marks, drops every other field, and
      leaves questions without other fields as they are. */
  lemma ProjectKeeps(qs: seq<Question>)
    ensures Plain(Project(qs))
    ensures forall i :: 0 <= i < |qs| ==>
              (Project(qs)[i].text == qs[i].text && |Project(qs)[i].options| == |qs[i].options|)
    ensures forall i, k :: 0 <= i < |qs| && 0 <= k < |qs[i].options| ==>
              Project(qs)[i].options[k].text == qs[i].options[k].text
              && Project(qs)[i].options[k].isCorrect == qs[i].options[k].isCorrect
    ensures Plain(qs) ==> Project(qs) == qs
  {
    if Plain(qs) {
      forall i | 0 <= i < |qs|
        ensures Project(qs)[i] == qs[i]
      {
        assert Project(qs)[i].options == qs[i].options;
      }
    }
  }

  /** What an error response carries as `detail`: nothing (or a falsy value), a
      string, or another JSON value with its encoding. */
  datatype Detail = NoDetail | TextDetail(text: string) | ValueDetail(json: string)

  const DefaultSubmitError := "Failed to create quiz. Please check your connection and try again."

  /** The older form's error text: the detail when it is a non-empty string, its
      JSON encoding when it is another value, the default otherwise. */
  function SubmitErrorText(d: Detail): (r: string)
    ensures d.TextDetail? && d.text != "" ==> r == d.text
    ensures d.ValueDetail? ==> r == d.json
    ensures d.NoDetail? || d == TextDetail("") ==> r == DefaultSubmitError
  {
    match d
    case NoDetail => DefaultSubmitError
    case TextDetail(s) => if s == "" then DefaultSubmitError else s
    case ValueDetail(j) => j
  }

  // ---------------------------------------------------------------------------
  // The editor

  datatype Mode = Manual | Ai

  class QuizCreator {
    var title: string
    var description: string
    var duration: string
    var deadline: string
    var questions: seq<Question>
    var loading: bool
    var error: string
    var mode: Mode
    var isGenerating: bool

    constructor ()
      ensures title == "" && description == "" && duration == "30" && deadline == ""
      ensures questions == [NewQuestion] && Shaped(questions)
      ensures !loading && error == "" && mode == Manual && !isGenerating
    {
      title := "";
      description := "";
      duration := "30";
      deadline := "";
      questions := [NewQuestion];
      loading := false;
      error := "";
      mode := Manual;
      isGenerating := false;
    }

    /** `addQuestion`. */
    method AddQuestion()
      modifies this
      ensures questions == old(questions) + [NewQuestion]
      ensures old(Shaped(questions)) ==> Shaped(questions)
      ensures title == old(title) && description == old(description) && error == old(error)
      ensures duration == old(duration) && deadline == old(deadline) && mode == old(mode)
      ensures loading == old(loading) && isGenerating == old(isGenerating)
    {
      questions := questions + [NewQuestion];
    }

    /** `removeQuestion`: refused while only one question is left. */
    method RemoveQuestion(index: int)
      modifies this
      ensures |old(questions)| == 1 ==> questions == old(questions)
      ensures |old(questions)| != 1 ==> questions == SpliceOne(old(questions), index)
      ensures old(Shaped(questions)) ==> Shaped(questions)
      ensures title == old(title) && description == old(description) && error == old(error)
      ensures duration == old(duration) && deadline == old(deadline) && mode == old(mode)
      ensures loading == old(loading) && isGenerating == old(isGenerating)
    {
      if |questions| == 1 {
        return;
      }
      var before := questions;
      questions := SpliceOne(questions, index);
      SpliceOneAt(before, index);
      if Shaped(before) {
        forall i | 0 <= i < |questions|
          ensures |questions[i].options| >= 2
        {
          var k := SpliceStart(|before|, index);
          if k < |before| && i >= k {
            assert questions[i] == before[i + 1];
          }
        }
      }
    }

    /** `updateQuestion`: only that question's text changes. */
    method UpdateQuestion(index: int, text: string)
      requires 0 <= index < |questions|
      modifies this
      ensures questions == old(questions)[index := old(questions)[index].(text := text)]
      ensures old(Shaped(questions)) ==> Shaped(questions)
      ensures title == old(title) && description == old(description) && error == old(error)
      ensures duration == old(duration) && deadline == old(deadline) && mode == old(mode)
      ensures loading == old(loading) && isGenerating == old(isGenerating)
    {
      questions := questions[index := questions[index].(text := text)];
    }

    /** `addOption`: a blank, incorrect option at the end of the question. */
    method AddOption(qIndex: int)
      requires 0 <= qIndex < |questions|
      modifies this
      ensures questions == old(questions)[qIndex :=
                old(questions)[qIndex].(options := old(questions)[qIndex].options + [BlankChoice])]
      ensures old(Shaped(questions)) ==> Shaped(questions)
      ensures title == old(title) && description == old(description) && error == old(error)
      ensures duration == old(duration) && deadline == old(deadline) && mode == old(mode)
      ensures loading == old(loading) && isGenerating == old(isGenerating)
    {
      var q := questions[qIndex];
      questions := questions[qIndex := q.(options := q.options + [BlankChoice])];
    }

    /** `removeOption`: refused while the question has two options or fewer. */
    method RemoveOption(qIndex: int, oIndex: int)
      requires 0 <= qIndex < |questions|
      modifies this
      ensures |old(questions)[qIndex].options| <= 2 ==> questions == old(questions)
      ensures |old(questions)[qIndex].options| > 2 ==>
                questions == old(questions)[qIndex :=
                  old(questions)[qIndex].(options := SpliceOne(old(questions)[qIndex].options, oIndex))]
      ensures old(Shaped(questions)) ==> Shaped(questions)
      ensures title == old(title) && description == old(description) && error == old(error)
      ensures duration == old(duration) && deadline == old(deadline) && mode == old(mode)
      ensures loading == old(loading) && isGenerating == old(isGenerating)
    {
      var q := questions[qIndex];
      if |q.options| <= 2 {
        return;
      }
      SpliceOneAt(q.options, oIndex);
      questions := questions[qIndex := q.(options := SpliceOne(q.options, oIndex))];
    }

    /** `updateOption`: only that option's text changes. */
    method UpdateOption(qIndex: int, oIndex: int, text: string)
      requires 0 <= qIndex < |questions| && 0 <= oIndex < |questions[qIndex].options|
      modifies this
      ensures questions == old(questions)[qIndex := old(questions)[qIndex].(options :=
                old(questions)[qIndex].options[oIndex := old(questions)[qIndex].options[oIndex].(text := text)])]
      ensures old(Shaped(questions)) ==> Shaped(questions)
      ensures title == old(title) && description == old(description) && error == old(error)
      ensures duration == old(duration) && deadline == old(deadline) && mode == old(mode)
      ensures loading == old(loading) && isGenerating == old(isGenerating)
    {
      var q := questions[qIndex];
      var opts := q.options[oIndex := q.options[oIndex].(text := text)];
      questions := questions[qIndex := q.(options := opts)];
    }

    /** `setCorrectOption`: the `forEach` that marks option oIndex and clears every
        other mark of the question. */
    method SetCorrectOption(qIndex: int, oIndex: int)
      requires 0 <= qIndex < |questions|
      modifies this
      ensures questions == old(questions)[qIndex :=
                old(questions)[qIndex].(options := CorrectOnly(old(questions)[qIndex].options, oIndex))]
      ensures old(Shaped(questions)) ==> Shaped(questions)
      ensures title == old(title) && description == old(description) && error == old(error)
      ensures duration == old(duration) && deadline == old(deadline) && mode == old(mode)
      ensures loading == old(loading) && isGenerating == old(isGenerating)
    {
      var q := questions[qIndex];
      var opts := q.options;
      var idx := 0;
      while idx < |opts|
        invariant 0 <= idx <= |opts| && |opts| == |q.options|
        invariant forall k :: 0 <= k < idx ==> opts[k] == q.options[k].(isCorrect := k == oIndex)
        invariant forall k :: idx <= k < |opts| ==> opts[k] == q.options[k]
      {
        opts := opts[idx := opts[idx].(isCorrect := idx == oIndex)];
        idx := idx + 1;
      }
      assert opts == CorrectOnly(q.options, oIndex);
      questions := questions[qIndex := q.(options := opts)];
    }

    /** `handleAiGenerate`. Without a subject or a topic only the error is set.
        `reply` is the generated questions, or the error detail. */
    method HandleAiGenerate(subject: string, topic: string, difficulty: string, reply: Outcome<seq<Question>>)
      modifies this
      ensures subject == "" || topic == "" ==>
                error == "Please provide both Subject and Topic for AI generation."
                && questions == old(questions) && title == old(title) && description == old(description)
                && mode == old(mode) && isGenerating == old(isGenerating)
      ensures subject != "" && topic != "" && reply.Ok? ==>
                questions == reply.value && mode == Manual && error == ""
                && title == (if old(title) == "" then topic + " Quiz" else old(title))
                && description == (if old(description) == "" then
                     "A " + difficulty + " difficulty quiz about " + subject + " - " + topic + "."
                   else old(description))
      ensures subject != "" && topic != "" && reply.Fail? ==>
                questions == old(questions) && title == old(title) && description == old(description)
                && mode == old(mode) && error == (if reply.detail != "" then reply.detail
                             else "Failed to generate quiz with AI. Please try again.")
      ensures subject != "" && topic != "" ==> !isGenerating
      ensures duration == old(duration) && deadline == old(deadline) && loading == old(loading)
    {
      if subject == "" || topic == "" {
        error := "Please provide both Subject and Topic for AI generation.";
        return;
      }
      isGenerating := true;
      error := "";
      match reply {
        case Ok(generated) =>
          questions := generated;
          mode := Manual;
          if title == "" {
            title := topic + " Quiz";
          }
          if description == "" {
            description := "A " + difficulty + " difficulty quiz about " + subject + " - " + topic + ".";
          }
        case Fail(_, detail) =>
          error := if detail != "" then detail else "Failed to generate quiz with AI. Please try again.";
      }
      isGenerating := false;
    }

    /** `handleSubmit` of the current form: the first failing check is shown and
        nothing is sent; otherwise the form goes out with an empty deadline as
        null. `reply` is None on success, else the failure's detail. */
    method HandleSubmit(reply: Option<Detail>) returns (sent: Option<QuizPayload>, closed: bool)
      modifies this
      ensures var c := FormCheck(old(title), old(description), old(duration), old(questions));
              (c.Some? ==> sent.None? && !closed && error == Message(c.value) && loading == old(loading))
              && (c.None? ==> sent == Some(QuizPayload(old(title), old(description), JsParseInt(old(duration)),
                                                       if old(deadline) == "" then None else Some(old(deadline)),
                                                       old(questions))) && !loading)
      ensures closed <==> sent.Some? && reply.None?
      ensures sent.Some? && reply.Some? ==> error == "Failed to create quiz. Please try again."
      ensures sent.Some? && reply.None? ==> error == ""
      ensures questions == old(questions) && title == old(title) && description == old(description)
      ensures duration == old(duration) && deadline == old(deadline) && mode == old(mode)
      ensures isGenerating == old(isGenerating)
    {
      error := "";
      var check := CheckForm(title, description, duration, questions);
      if check.Some? {
        error := Message(check.value);
        return None, false;
      }
      var payload := QuizPayload(title, description, JsParseInt(duration),
                                 if deadline == "" then None else Some(deadline), questions);
      sent := Some(payload);
      closed := Post(if reply.Some? then Some("Failed to create quiz. Please try again.") else None);
    }

    /** The request itself: `loading` is on while it runs; a failure's text is
        shown, a success notifies the parent and closes the dialog. */
    method Post(failure: Option<string>) returns (closed: bool)
      modifies this
      ensures closed <==> failure.None?
      ensures error == (if failure.Some? then failure.value else old(error)) && !loading
      ensures questions == old(questions) && title == old(title) && description == old(description)
      ensures duration == old(duration) && deadline == old(deadline) && mode == old(mode)
      ensures isGenerating == old(isGenerating)
    {
      loading := true;
      closed := failure.None?;
      if failure.Some? {
        error := failure.value;
      }
      loading := false;
    }

    /** `handleSubmit` of the older form, which has no deadline: the same checks,
        the questions projected, and the server's detail shown on failure. */
    method HandleSubmitProjected(reply: Option<Detail>) returns (sent: Option<QuizPayload>, closed: bool)
      modifies this
      ensures var c := FormCheck(old(title), old(description), old(duration), old(questions));
              (c.Some? ==> sent.None? && !closed && error == Message(c.value) && loading == old(loading))
              && (c.None? ==> sent == Some(QuizPayload(old(title), old(description), JsParseInt(old(duration)),
                                                       None, Project(old(questions)))) && !loading)
      ensures closed <==> sent.Some? && reply.None?
      ensures sent.Some? && reply.Some? ==> error == SubmitErrorText(reply.value)
      ensures sent.Some? && reply.None? ==> error == ""
      ensures questions == old(questions) && title == old(title) && description == old(description)
      ensures duration == old(duration) && deadline == old(deadline) && mode == old(mode)
      ensures isGenerating == old(isGenerating)
    {
      error := "";
      var check := CheckForm(title, description, duration, questions);
      if check.Some? {
        error := Message(check.value);
        return None, false;
      }
      var posted := Project(questions);
      sent := Some(QuizPayload(title, description, JsParseInt(duration), None, posted));
      closed := Post(if reply.Some? then Some(SubmitErrorText(reply.value)) else None);
    }
  }
}
