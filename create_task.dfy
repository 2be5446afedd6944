/** The dialog that creates one task by hand: the date text it starts from, the
    checks before anything is sent, and the request it sends. */
module CreateTask {
  import opened Wrappers
  import opened Text
  import opened Calendar
  import opened Arith
  import opened Strptime

  /** `formatDate`: the year as `String(year)`, month and day padded to two digits. */
  function FormatDate(d: Date): (r: string)
    requires IsCivil(d)
  {
    NatToString(d.year) + "-" + Pad2(d.month) + "-" + Pad2(d.day)
  }

  lemma DigitStep(n: nat)
    requires n >= 10
    ensures NatToString(n) == NatToString(n / 10) + [DigitChar(n % 10)]
  {
  }

  lemma FourDigitYear(y: nat)
    requires 1000 <= y <= 9999
    ensures NatToString(y) ==
              [DigitChar(y / 1000), DigitChar(y / 100 % 10), DigitChar(y / 10 % 10), DigitChar(y % 10)]
  {
    DigitStep(y);
    DigitStep(y / 10);
    DigitStep(y / 100);
    assert y / 10 / 10 == y / 100 && y / 100 / 10 == y / 1000;
    assert y / 10 / 10 % 10 == y / 100 % 10;
  }

  lemma TwoDigitField(n: nat)
    requires 1 <= n <= 31
    ensures Pad2(n) == [DigitChar(n / 10), DigitChar(n % 10)]
  {
    if n < 10 {
      assert NatToString(n) == [DigitChar(n)];
      assert PadStart(NatToString(n), 2, '0') == "0" + NatToString(n);
    } else {
      DigitStep(n);
      assert n / 10 < 10;
    }
  }

  /** For a four-digit year the text is the YYYY-MM-DD form of a date input. */
  lemma FormatDateIsIso(d: Date)
    requires IsValid(d) && d.year >= 1000
    ensures FormatDate(d) == FormatIso(d)
  {
    FourDigitYear(d.year);
    TwoDigitField(d.month);
    TwoDigitField(d.day);
  }

  /** ... so it reads back as the same date. */
  lemma FormatDateRoundTrip(d: Date)
    requires IsValid(d) && d.year >= 1000
    ensures ParseYmd(FormatDate(d)) == Some(d)
  {
    FormatDateIsIso(d);
    ParseFormatIso(d);
  }

  /** What `POST /api/tasks/manual` carries: no type and no duration. */
  datatype Payload = Payload(title: string, taskDate: string, colourtag: string, taskTime: int)

  /** What a submit decides before the request: refuse an incomplete form, refuse
      a time `new Date(...)` cannot read, or send. */
  datatype Submission = Incomplete | InvalidTime | Send(payload: Payload)

  /** The checks of `handleSubmit`, in order. `parsed` is the time
      `new Date(taskDate + "T" + startTime + ":00")` gives, None for an invalid date. */
  function Submit(title: string, taskDate: string, startTime: string, color: string,
                  parsed: Option<int>): Submission
  {
    if JsTrim(title) == "" || taskDate == "" || startTime == "" then Incomplete
    else if parsed.None? then InvalidTime
    else Send(Payload(title, taskDate, color, parsed.value))
  }

  /** A request goes out exactly when the trimmed title, the date and the time are
      all non-empty and the time reads; it carries the form's own title, date and
      colour and the time read. */
  lemma SubmitSends(title: string, taskDate: string, startTime: string, color: string, parsed: Option<int>)
    ensures Submit(title, taskDate, startTime, color, parsed).Send? <==>
              JsTrim(title) != "" && taskDate != "" && startTime != "" && parsed.Some?
    ensures Submit(title, taskDate, startTime, color, parsed).Incomplete? <==>
              JsTrim(title) == "" || taskDate == "" || startTime == ""
    ensures Submit(title, taskDate, startTime, color, parsed).Send? ==>
              Submit(title, taskDate, startTime, color, parsed).payload
                == Payload(title, taskDate, color, parsed.value)
  {
  }

  /** The form is refused as incomplete exactly when the title is blanks only or
      the date or time is empty. */
  lemma BlankTitleRefused(title: string, taskDate: string, startTime: string, color: string, parsed: Option<int>)
    ensures Submit(title, taskDate, startTime, color, parsed).Incomplete? <==>
              AllSpace(title, IsJsSpace) || taskDate == "" || startTime == ""
  {
    TrimEmptyIff(title, IsJsSpace);
  }

  const DefaultStartTime := "09:00"

  class CreateTaskModal {
    var title: string
    var taskDate: string
    var taskType: string
    var color: string
    var startTime: string
    var duration: int
    var loading: bool

    /** The initial form for the selected day. */
    constructor (selected: Date)
      requires IsCivil(selected)
      ensures title == "" && taskDate == FormatDate(selected) && taskType == "Revision"
      ensures color == "bg-primary" && startTime == DefaultStartTime && duration == 60 && !loading
    {
      title := "";
      taskDate := FormatDate(selected);
      taskType := "Revision";
      color := "bg-primary";
      startTime := DefaultStartTime;
      duration := 60;
      loading := false;
    }

    /** The effect run when the selected day changes or the dialog opens: an open
        dialog takes the selected day's date. */
    method SyncDate(isOpen: bool, selected: Date)
      requires IsCivil(selected)
      modifies this
      ensures isOpen ==> taskDate == FormatDate(selected)
      ensures !isOpen ==> taskDate == old(taskDate)
      ensures title == old(title) && taskType == old(taskType) && color == old(color)
      ensures startTime == old(startTime) && duration == old(duration) && loading == old(loading)
    {
      if isOpen {
        taskDate := FormatDate(selected);
      }
    }

    /** `handleSubmit`. `parsed` is what the Date constructor reads, `accepted`
        whether the server took the request. Returns the request sent and whether
        the parent was notified and the dialog closed. */
    method HandleSubmit(parsed: Option<int>, accepted: bool) returns (sent: Option<Payload>, closed: bool)
      modifies this
      ensures var s := Submit(old(title), old(taskDate), old(startTime), old(color), parsed);
              (s.Send? ==> sent == Some(s.payload)) && (!s.Send? ==> sent.None?)
      ensures closed <==> sent.Some? && accepted
      ensures closed ==> title == "" && startTime == DefaultStartTime
      ensures !closed ==> title == old(title) && startTime == old(startTime)
      ensures Submit(old(title), old(taskDate), old(startTime), old(color), parsed).Incomplete? ==>
                loading == old(loading)
      ensures !Submit(old(title), old(taskDate), old(startTime), old(color), parsed).Incomplete? ==> !loading
      ensures taskDate == old(taskDate) && taskType == old(taskType) && color == old(color)
      ensures duration == old(duration)
    {
      var s := Submit(title, taskDate, startTime, color, parsed);
      if s.Incomplete? {
        return None, false;
      }
      loading := true;
      if s.InvalidTime? {
        loading := false;
        return None, false;
      }
      sent := Some(s.payload);
      closed := accepted;
      if accepted {
        title := "";
        startTime := DefaultStartTime;
      }
      loading := false;
    }
  }
}
