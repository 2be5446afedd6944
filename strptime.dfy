/** `datetime.strptime(text, "%Y-%m-%d")`. Python compiles the format to the regular
    expression
      (\d\d\d\d)-(1[0-2]|0[1-9]|[1-9])-(3[01]|[12]\d|0[1-9]|[1-9]| [1-9])
    matches it at the start of the text, rejects any unconverted text after the
    match, and then rejects a day that does not exist in its month or year 0. */
module Strptime {
  import opened Wrappers
  import opened Text
  import opened Calendar

  /** Length of the `%m` group at position k. The alternatives are tried in order
      and the engine backtracks into them until the literal '-' after the group matches. */
  function MonthMatch(s: string, k: nat): (r: Option<nat>)
    ensures r.Some? ==> (r.value == 1 || r.value == 2) && k + r.value < |s|
                        && s[k + r.value] == '-' && AllDigits(s[k..k + r.value])
  {
    if k + 2 < |s| && s[k] == '1' && '0' <= s[k + 1] <= '2' && s[k + 2] == '-' then Some(2)
    else if k + 2 < |s| && s[k] == '0' && '1' <= s[k + 1] <= '9' && s[k + 2] == '-' then Some(2)
    else if k + 1 < |s| && '1' <= s[k] <= '9' && s[k + 1] == '-' then Some(1)
    else None
  }

  /** Length of the `%d` group at position k: the first alternative that matches.
      Nothing follows it in the expression, so no backtracking happens here. */
  function DayMatch(s: string, k: nat): (r: Option<nat>)
    ensures r.Some? ==> (r.value == 1 || r.value == 2) && k + r.value <= |s|
  {
    if k + 1 < |s| && s[k] == '3' && (s[k + 1] == '0' || s[k + 1] == '1') then Some(2)
    else if k + 1 < |s| && (s[k] == '1' || s[k] == '2') && IsDigit(s[k + 1]) then Some(2)
    else if k + 1 < |s| && s[k] == '0' && '1' <= s[k + 1] <= '9' then Some(2)
    else if k < |s| && '1' <= s[k] <= '9' then Some(1)
    else if k + 1 < |s| && s[k] == ' ' && '1' <= s[k + 1] <= '9' then Some(2)
    else None
  }

  /** `int()` of the day group; it ignores the leading blank of the " [1-9]" form. */
  function DayValue(s: string, k: nat, len: nat): nat
    requires k + len <= |s| && (len == 1 || len == 2)
  {
    if s[k] == ' ' && len == 2 && IsDigit(s[k + 1]) then DigitValue(s[k + 1])
    else if AllDigits(s[k..k + len]) then DigitsValue(s[k..k + len])
    else 0
  }

  /** The date `strptime(s, "%Y-%m-%d")` returns, or None where it raises ValueError. */
  function ParseYmd(s: string): (r: Option<Date>)
    ensures r.Some? ==> IsValid(r.value)
  {
    if |s| < 5 || !AllDigits(s[..4]) || s[4] != '-' then None
    else match MonthMatch(s, 5)
      case None => None
      case Some(ml) =>
        var dk := 5 + ml + 1;
        match DayMatch(s, dk)
          case None => None
          case Some(dl) =>
            if dk + dl != |s| then None
            else
              var d := Date(DigitsValue(s[..4]), DigitsValue(s[5..5 + ml]), DayValue(s, dk, dl));
              if IsValid(d) then Some(d) else None
  }

  /** The text of an HTML date input: four-digit year, two-digit month and day. */
  function FormatIso(d: Date): (r: string)
    requires IsValid(d)
    ensures |r| == 10 && r[4] == '-' && r[7] == '-'
  {
    var y := d.year;
    [DigitChar(y / 1000), DigitChar(y / 100 % 10), DigitChar(y / 10 % 10), DigitChar(y % 10)]
    + "-" + [DigitChar(d.month / 10), DigitChar(d.month % 10)]
    + "-" + [DigitChar(d.day / 10), DigitChar(d.day % 10)]
  }

  lemma TwoDigits(s: string, a: nat, b: nat)
    requires a < 10 && b < 10 && s == [DigitChar(a), DigitChar(b)]
    ensures AllDigits(s) && DigitsValue(s) == 10 * a + b
  {
    assert s[..1] == [DigitChar(a)];
    assert s[..1][..0] == [];
    assert DigitsValue(s[..1]) == a;
  }

  lemma FourDigits(s: string, y: nat)
    requires y < 10000
    requires s == [DigitChar(y / 1000), DigitChar(y / 100 % 10), DigitChar(y / 10 % 10), DigitChar(y % 10)]
    ensures AllDigits(s) && DigitsValue(s) == y
  {
    var a, b, c, e := y / 1000, y / 100 % 10, y / 10 % 10, y % 10;
    assert s[..3][..2] == s[..2] && s[..2][..1] == s[..1] && s[..1][..0] == [];
    assert DigitsValue(s[..1]) == a;
    assert DigitsValue(s[..2]) == 10 * a + b;
    assert DigitsValue(s[..3]) == 100 * a + 10 * b + c;
    assert DigitsValue(s) == 1000 * a + 100 * b + 10 * c + e;
    assert y / 10 / 10 == y / 100 && y / 100 / 10 == y / 1000;
    assert y / 100 == 10 * a + b;
    assert y / 10 == 100 * a + 10 * b + c;
  }

  /** Every date written as YYYY-MM-DD is read back as the same date. */
  lemma ParseFormatIso(d: Date)
    requires IsValid(d)
    ensures ParseYmd(FormatIso(d)) == Some(d)
  {
    var s := FormatIso(d);
    FormatIsoPieces(d);
    FourDigits(s[..4], d.year);
    TwoDigits(s[5..7], d.month / 10, d.month % 10);
    TwoDigits(s[8..10], d.day / 10, d.day % 10);
    IsoMatches(s, d.month, d.day);
    ParseIsoShape(s, d);
  }

  /** The three fields of the ISO text. */
  lemma FormatIsoPieces(d: Date)
    requires IsValid(d)
    ensures FormatIso(d)[..4] ==
              [DigitChar(d.year / 1000), DigitChar(d.year / 100 % 10), DigitChar(d.year / 10 % 10), DigitChar(d.year % 10)]
    ensures FormatIso(d)[5..7] == [DigitChar(d.month / 10), DigitChar(d.month % 10)]
    ensures FormatIso(d)[8..10] == [DigitChar(d.day / 10), DigitChar(d.day % 10)]
  {
  }

  /** A two-digit month and a two-digit day are matched by their groups in full. */
  lemma IsoMatches(s: string, month: int, day: int)
    requires |s| == 10 && s[7] == '-' && 1 <= month <= 12 && 1 <= day <= 31
    requires s[5..7] == [DigitChar(month / 10), DigitChar(month % 10)]
    requires s[8..10] == [DigitChar(day / 10), DigitChar(day % 10)]
    ensures MonthMatch(s, 5) == Some(2) && DayMatch(s, 8) == Some(2)
    ensures s[8] != ' '
  {
    assert s[5] == s[5..7][0] && s[6] == s[5..7][1];
    assert s[8] == s[8..10][0] && s[9] == s[8..10][1];
  }

  /** Text with a four-digit year, a full month group and a full day group, all of
      them read as the fields of a real date, is parsed as that date. */
  lemma ParseIsoShape(s: string, d: Date)
    requires IsValid(d) && |s| == 10 && s[4] == '-'
    requires AllDigits(s[..4]) && DigitsValue(s[..4]) == d.year
    requires MonthMatch(s, 5) == Some(2) && DayMatch(s, 8) == Some(2) && s[8] != ' '
    requires AllDigits(s[5..7]) && DigitsValue(s[5..7]) == d.month
    requires AllDigits(s[8..10]) && DigitsValue(s[8..10]) == d.day
    ensures ParseYmd(s) == Some(d)
  {
    assert DayValue(s, 8, 2) == d.day;
  }

  /** The month group never reads 13 or more: "2024-13-01" is rejected. */
  lemma RejectsMonth13()
    ensures ParseYmd("2024-13-01") == None
  {
  }

  /** A day the month does not have is rejected after matching. */
  lemma RejectsFebruary30()
    ensures ParseYmd("2023-02-30") == None
  {
    assert MonthMatch("2023-02-30", 5) == Some(2);
  }

  /** One-digit months and days are accepted too. */
  lemma AcceptsShortFields()
    ensures ParseYmd("2024-1-5") == Some(Date(2024, 1, 5))
  {
    var s := "2024-1-5";
    assert MonthMatch(s, 5) == Some(1);
    assert DayMatch(s, 7) == Some(1);
    assert s[..4] == "2024";
    assert DigitsValue("2024") == 2024 by {
      assert "2024"[..3] == "202" && "202"[..2] == "20" && "20"[..1] == "2" && "2"[..0] == "";
    }
  }
}
