/**
 The calendar and the layout of TimeText against definitions that know nothing of its tables: the proleptic Gregorian
 day count of section 3.2.1 of ISO 8601, in its closed form that starts years in March, and the layout
 2006-01-02T15:04:05.000000000Z by character positions.
 */
module Calendar {
  import opened Basics
  import opened TimeText
  import opened TimeTextRange

  // ---------------------------------------------------------------- the day count

  // Days from 1 March of year 0: with years that start in March the leap day comes last, and the lengths of the
  // months before each month are those of a straight line.
  function MarchDays(year: int, month: int, day: int): int {
    var y, m := if month <= 2 then year - 1 else year, (month + 9) % 12;
    365 * y + y / 4 - y / 100 + y / 400 + (153 * m + 2) / 5 + day - 1
  }

  function One(b: bool): int {
    if b then 1 else 0
  }

  lemma StepOf4(n: nat)
    ensures (n + 4) / 4 == (n + 3) / 4 + One(n % 4 == 0)
    ensures (n + 3) / 4 == n / 4 + 1 - One(n % 4 == 0)
  {
  }

  lemma StepOf100(n: nat)
    ensures (n + 100) / 100 == (n + 99) / 100 + One(n % 100 == 0)
    ensures (n + 99) / 100 == n / 100 + 1 - One(n % 100 == 0)
  {
  }

  lemma StepOf400(n: nat)
    ensures (n + 400) / 400 == (n + 399) / 400 + One(n % 400 == 0)
    ensures (n + 399) / 400 == n / 400 + 1 - One(n % 400 == 0)
  {
  }

  lemma Multiple4(n: nat, k: nat)
    requires n == 4 * k
    ensures n % 4 == 0
  {
  }

  lemma Multiple100(n: nat, k: nat)
    requires n == 100 * k
    ensures n % 100 == 0
  {
  }

  lemma LeapByDivisors(n: nat)
    ensures One(Leap(n)) == One(n % 4 == 0) - One(n % 100 == 0) + One(n % 400 == 0)
  {
    if n % 400 == 0 {
      Multiple100(n, 4 * (n / 400));
      Multiple4(n, 100 * (n / 400));
    } else if n % 100 == 0 {
      Multiple4(n, 25 * (n / 100));
    }
  }

  // The leap years before a year.
  function LeapsBefore(y: nat): int {
    (y + 3) / 4 - (y + 99) / 100 + (y + 399) / 400
  }

  lemma LeapsStep(y: nat)
    ensures LeapsBefore(y + 1) == LeapsBefore(y) + One(Leap(y))
    ensures LeapsBefore(y) == y / 4 - y / 100 + y / 400 + 1 - One(Leap(y))
  {
    StepOf4(y);
    StepOf100(y);
    StepOf400(y);
    LeapByDivisors(y);
    assert y + 1 + 3 == y + 4 && y + 1 + 99 == y + 100 && y + 1 + 399 == y + 400;
  }

  lemma {:induction false} YearsClosed(y: nat)
    ensures DaysBeforeYear(y) == 365 * y + LeapsBefore(y)
  {
    if y > 0 {
      YearsClosed(y - 1);
      LeapsStep(y - 1);
    }
  }

  lemma MonthsClosed(y: nat, m: nat)
    requires 1 <= m <= 12
    ensures DaysBeforeMonth(y, m) == if m <= 2 then 31 * (m - 1) else 59 + One(Leap(y)) + (153 * (m - 3) + 2) / 5
  {
    if m > 1 {
      MonthsClosed(y, m - 1);
    }
  }

  // The calendar of years, leap years and month lengths is the Gregorian one: every date has the day number of the
  // closed form, counted from 1 January of year 0, which is 60 days before that 1 March.
  lemma DayNumberIsGregorian(c: Civil)
    requires Valid(c)
    ensures DayNumber(c) == 60 + MarchDays(c.year, c.month, c.day)
  {
    MonthsClosed(c.year, c.month);
    if c.month <= 2 {
      YearFromBefore(c.year);
      EarlyMonth(c.month);
    } else {
      YearFromItself(c.year);
      LateMonth(c.month);
    }
  }

  lemma EarlyMonth(m: nat)
    requires 1 <= m <= 2
    ensures (m + 9) % 12 == m + 9 && (153 * ((m + 9) % 12) + 2) / 5 == 306 + 31 * (m - 1)
  {
    assert m == 1 || m == 2;
  }

  lemma LateMonth(m: nat)
    requires 3 <= m <= 12
    ensures (m + 9) % 12 == m - 3 && (153 * ((m + 9) % 12) + 2) / 5 == (153 * (m - 3) + 2) / 5
  {
  }

  lemma YearFromItself(y: nat)
    ensures DaysBeforeYear(y) == 365 * y + y / 4 - y / 100 + y / 400 + 1 - One(Leap(y))
  {
    YearsClosed(y);
    LeapsStep(y);
  }

  lemma YearFromBefore(y: nat)
    ensures DaysBeforeYear(y) == 365 * y + (y - 1) / 4 - (y - 1) / 100 + (y - 1) / 400 + 1
  {
    YearsClosed(y);
    YearBefore(y);
  }

  // The leap years up to the end of the year before, which for year 0 is year -1.
  lemma YearBefore(y: nat)
    ensures LeapsBefore(y) == (y - 1) / 4 - (y - 1) / 100 + (y - 1) / 400 + 1
  {
    QuotientBefore4(y);
    QuotientBefore100(y);
    QuotientBefore400(y);
  }

  lemma QuotientBefore4(y: nat)
    ensures (y + 3) / 4 == (y - 1) / 4 + 1
  {
  }

  lemma QuotientBefore100(y: nat)
    ensures (y + 99) / 100 == (y - 1) / 100 + 1
  {
  }

  lemma QuotientBefore400(y: nat)
    ensures (y + 399) / 400 == (y - 1) / 400 + 1
  {
  }

  // So an instant's date and time of day are those of its distance from 1970-01-01T00:00:00Z, day 719528.
  lemma InstantFromEpoch(t: nat)
    ensures var c := CivilOf(t);
            t == (719528 + MarchDays(c.year, c.month, c.day) - MarchDays(1970, 1, 1)) * 86_400_000_000_000
                 + c.hour * 3_600_000_000_000 + c.minute * 60_000_000_000 + c.second * 1_000_000_000 + c.nano
  {
    var c := CivilOf(t);
    DayNumberIsGregorian(c);
    assert MarchDays(1970, 1, 1) == 719468;
    TimeOfDay(c);
  }

  lemma TimeOfDay(c: Civil)
    ensures NanoOfDay(c) == c.hour * 3_600_000_000_000 + c.minute * 60_000_000_000 + c.second * 1_000_000_000 + c.nano
  {
  }

  // ---------------------------------------------------------------- the layout

  lemma {:induction false} Times(p: nat, x: nat, y: nat)
    requires x < y
    ensures p * x + p <= p * y
  {
    if x + 1 < y {
      Times(p, x, y - 1);
    }
    assert p * y == p * (y - 1) + p;
  }

  lemma Quotient(a: nat, p: nat, q: nat, r: nat)
    requires p > 0 && a == p * q + r && r < p
    ensures a / p == q
  {
    var d := a / p;
    if d < q {
      Times(p, d, q);
    } else if d > q {
      Times(p, q, d);
    }
  }

  lemma TenthOf(n: nat, p: nat)
    requires p > 0
    ensures n / 10 / p == n / (10 * p)
  {
    var q, r := n / (10 * p), n % (10 * p);
    assert n == 10 * p * q + r;
    assert 10 * p * q == 10 * (p * q);
    assert n / 10 == p * q + r / 10;
    Quotient(n / 10, p, q, r / 10);
  }

  // The k-th of w digits.
  lemma {:induction false} DigitAt(n: nat, w: nat, k: nat)
    requires n < Pow10(w) && k < w
    ensures |Digits(n, w)| == w && Digits(n, w)[k] == '0' + (n / Pow10(w - 1 - k) % 10) as char
  {
    DigitsLength(n, w);
    DigitsLength(n / 10, w - 1);
    if k < w - 1 {
      DigitAt(n / 10, w - 1, k);
      TenthOf(n, Pow10(w - 2 - k));
    }
  }

  // Where the i-th field starts, each field before it having its width and a separator.
  function Start(widths: seq<nat>, i: nat): nat
    requires i <= |widths|
  {
    if i == 0 then 0 else Start(widths, i - 1) + widths[i - 1] + 1
  }

  lemma {:induction false} StartShift(widths: seq<nat>, i: nat)
    requires 1 <= i <= |widths|
    ensures Start(widths, i) == widths[0] + 1 + Start(widths[1..], i - 1)
  {
    if i > 1 {
      StartShift(widths, i - 1);
    }
  }

  // The text from position `from`: the field's digits, and its separator after them.
  ghost predicate HasField(text: string, from: nat, width: nat, value: nat, separator: char) {
    && from + width < |text| && text[from + width] == separator
    && text[from..from + width] == Digits(value, width)
  }

  lemma {:induction false} PrintHasField(values: seq<nat>, widths: seq<nat>, separators: string, i: nat)
    requires |values| == |widths| == |separators| && Fit(values, widths) && i < |values|
    ensures HasField(Print(values, widths, separators), Start(widths, i), widths[i], values[i], separators[i])
    decreases i
  {
    var digits, rest := PrintUnfold(values, widths, separators);
    if i == 0 {
      FirstField(digits, separators[0], rest, widths[0], values[0]);
    } else {
      PrintHasField(values[1..], widths[1..], separators[1..], i - 1);
      assert widths[1..][i - 1] == widths[i] && values[1..][i - 1] == values[i] && separators[1..][i - 1] == separators[i];
      AfterFirst(digits, separators[0], rest, widths, i, values[i], separators[i]);
    }
  }

  lemma AfterFirst(digits: string, first: char, rest: string, widths: seq<nat>, i: nat, value: nat, separator: char)
    requires 1 <= i < |widths| && |digits| == widths[0]
    requires HasField(rest, Start(widths[1..], i - 1), widths[i], value, separator)
    ensures HasField(digits + ([first] + rest), Start(widths, i), widths[i], value, separator)
  {
    StartShift(widths, i);
    LaterField(digits + [first], rest, Start(widths[1..], i - 1), widths[i], value, separator);
    assert digits + ([first] + rest) == digits + [first] + rest;
  }

  lemma PrintUnfold(values: seq<nat>, widths: seq<nat>, separators: string) returns (digits: string, rest: string)
    requires |values| == |widths| == |separators| > 0 && Fit(values, widths)
    ensures digits == Digits(values[0], widths[0]) && |digits| == widths[0]
    ensures rest == Print(values[1..], widths[1..], separators[1..]) && Fit(values[1..], widths[1..])
    ensures Print(values, widths, separators) == digits + ([separators[0]] + rest)
  {
    digits, rest := Digits(values[0], widths[0]), Print(values[1..], widths[1..], separators[1..]);
    DigitsLength(values[0], widths[0]);
  }

  lemma FirstField(digits: string, separator: char, rest: string, width: nat, value: nat)
    requires digits == Digits(value, width) && |digits| == width
    ensures HasField(digits + ([separator] + rest), 0, width, value, separator)
  {
  }

  lemma LaterField(before: string, rest: string, from: nat, width: nat, value: nat, separator: char)
    requires HasField(rest, from, width, value, separator)
    ensures HasField(before + rest, |before| + from, width, value, separator)
  {
    assert (before + rest)[|before| + from..|before| + from + width] == rest[from..from + width];
  }

  lemma {:induction false} PrintLength(values: seq<nat>, widths: seq<nat>, separators: string)
    requires |values| == |widths| == |separators| && Fit(values, widths)
    ensures |Print(values, widths, separators)| == Start(widths, |widths|)
  {
    if values != [] {
      var digits, rest := PrintUnfold(values, widths, separators);
      PrintLength(values[1..], widths[1..], separators[1..]);
      StartShift(widths, |widths|);
    }
  }

  lemma Starts()
    ensures Start(WIDTHS, 0) == 0 && Start(WIDTHS, 1) == 5 && Start(WIDTHS, 2) == 8 && Start(WIDTHS, 3) == 11
    ensures Start(WIDTHS, 4) == 14 && Start(WIDTHS, 5) == 17 && Start(WIDTHS, 6) == 20 && Start(WIDTHS, 7) == 30
  {
    assert Start(WIDTHS, 1) == 5;
    assert Start(WIDTHS, 3) == 11;
    assert Start(WIDTHS, 5) == 17;
  }

  // The digits of a number, written out from a position.
  ghost predicate ShowsAt(text: string, from: nat, width: nat, value: nat) {
    && from + width <= |text|
    && forall k :: from <= k < from + width ==> text[k] == '0' + (value / Pow10(from + width - 1 - k) % 10) as char
  }

  lemma FieldShows(text: string, from: nat, width: nat, value: nat, separator: char)
    requires HasField(text, from, width, value, separator) && value < Pow10(width)
    ensures ShowsAt(text, from, width, value)
  {
    forall k | from <= k < from + width
      ensures text[k] == '0' + (value / Pow10(from + width - 1 - k) % 10) as char
    {
      DigitAt(value, width, k - from);
      assert text[k] == text[from..from + width][k - from];
    }
  }

  // The i-th field of a text: its digits, and its separator after them.
  ghost predicate FieldShown(text: string, values: seq<nat>, widths: seq<nat>, separators: string, i: nat)
    requires i < |values| == |widths| == |separators|
  {
    var from := Start(widths, i);
    && |text| == Start(widths, |widths|) && ShowsAt(text, from, widths[i], values[i])
    && from + widths[i] < |text| && text[from + widths[i]] == separators[i]
  }

  lemma FieldsShow(values: seq<nat>, widths: seq<nat>, separators: string, i: nat)
    requires |values| == |widths| == |separators| && Fit(values, widths) && i < |values|
    ensures FieldShown(Print(values, widths, separators), values, widths, separators, i)
  {
    PrintHasField(values, widths, separators, i);
    PrintLength(values, widths, separators);
    FieldShows(Print(values, widths, separators), Start(widths, i), widths[i], values[i], separators[i]);
  }

  lemma FieldAt(t: nat, i: nat)
    requires CivilOf(t).year <= 9999 && i < 7
    ensures FieldShown(Format(t), Fields(CivilOf(t)), WIDTHS, SEPARATORS, i)
  {
    FieldsFit(CivilOf(t));
    FieldsShow(Fields(CivilOf(t)), WIDTHS, SEPARATORS, i);
  }

  // A timestamp of the years 0 to 9999 by its thirty characters.
  lemma FormatLayout(t: nat)
    requires CivilOf(t).year <= 9999
    ensures var text, c := Format(t), CivilOf(t);
            && |text| == 30
            && text[4] == text[7] == '-' && text[10] == 'T' && text[13] == text[16] == ':' && text[19] == '.' && text[29] == 'Z'
            && ShowsAt(text, 0, 4, c.year) && ShowsAt(text, 5, 2, c.month) && ShowsAt(text, 8, 2, c.day)
            && ShowsAt(text, 11, 2, c.hour) && ShowsAt(text, 14, 2, c.minute) && ShowsAt(text, 17, 2, c.second)
            && ShowsAt(text, 20, 9, c.nano)
  {
    Starts();
    FieldAt(t, 0);
    FieldAt(t, 1);
    FieldAt(t, 2);
    FieldAt(t, 3);
    FieldAt(t, 4);
    FieldAt(t, 5);
    FieldAt(t, 6);
  }

  // ---------------------------------------------------------------- reading it back

  lemma TensAndOnes(v: nat, c: char)
    requires DigitValue(c).Some?
    ensures var n := 10 * v + DigitValue(c).value; n / 10 == v && DigitChar(n % 10) == c
  {
  }

  lemma {:induction false} DigitsOfNumber(s: string)
    requires Number(s).Some?
    ensures Number(s).value < Pow10(|s|) && Digits(Number(s).value, |s|) == s
  {
    if s != "" {
      var init, last := s[..|s| - 1], s[|s| - 1];
      DigitsOfNumber(init);
      TensAndOnes(Number(init).value, last);
      assert s == init + [last];
    }
  }

  lemma {:induction false} PrintOfScan(text: string, widths: seq<nat>, separators: string)
    requires |widths| == |separators| && Scan(text, widths, separators).Some?
    ensures var values := Scan(text, widths, separators).value;
            |values| == |widths| && Fit(values, widths) && Print(values, widths, separators) == text
    decreases |widths|
  {
    if widths != [] {
      var digits, n, after, rest := FirstScanned(text, widths, separators);
      PrintOfScan(after, widths[1..], separators[1..]);
      PrintOneMore(n, rest, widths, separators, after);
    }
  }

  lemma FirstScanned(text: string, widths: seq<nat>, separators: string)
    returns (digits: string, n: nat, after: string, rest: seq<nat>)
    requires |widths| == |separators| > 0 && Scan(text, widths, separators).Some?
    ensures text == digits + ([separators[0]] + after) && n < Pow10(widths[0]) && Digits(n, widths[0]) == digits
    ensures Scan(after, widths[1..], separators[1..]) == Some(rest) && Scan(text, widths, separators) == Some([n] + rest)
  {
    digits, after := text[..widths[0]], text[widths[0] + 1..];
    n, rest := Number(digits).value, Scan(after, widths[1..], separators[1..]).value;
    DigitsOfNumber(digits);
  }

  lemma PrintOneMore(n: nat, rest: seq<nat>, widths: seq<nat>, separators: string, after: string)
    requires |widths| == |separators| == |rest| + 1 && n < Pow10(widths[0]) && Fit(rest, widths[1..])
    requires Print(rest, widths[1..], separators[1..]) == after
    ensures Fit([n] + rest, widths)
    ensures Print([n] + rest, widths, separators) == Digits(n, widths[0]) + ([separators[0]] + after)
  {
    var values := [n] + rest;
    assert values[1..] == rest;
    forall i | 0 <= i < |values|
      ensures values[i] < Pow10(widths[i])
    {
      assert i > 0 ==> widths[i] == widths[1..][i - 1] && rest[i - 1] < Pow10(widths[1..][i - 1]);
    }
  }

  // A text is read as an instant exactly when it is what the store prints for that instant; any other text, an
  // impossible date among them, is refused.
  lemma ParseExact(text: string, t: nat)
    ensures Parse(text) == Some(t) <==> CivilOf(t).year <= 9999 && text == Format(t)
  {
    if Parse(text) == Some(t) {
      var f := Scan(text, WIDTHS, SEPARATORS).value;
      PrintOfScan(text, WIDTHS, SEPARATORS);
      var c := Civil(f[0], f[1], f[2], f[3], f[4], f[5], f[6]);
      CivilOfInstant(c);
      assert Fields(c) == f;
      assert f[0] < Pow10(WIDTHS[0]);
      FourDigits();
    }
    if CivilOf(t).year <= 9999 {
      ParseOfFormat(t);
    }
  }
}
