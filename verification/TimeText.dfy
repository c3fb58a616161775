/**
 Timestamps as SQLite stores them (internal/store/sqlite.go): TEXT in the layout
 2006-01-02T15:04:05.000000000Z07:00, always of a UTC instant. Sections 5.1 and 5.6 of RFC 3339 promise that such
 strings, in one zone and of one width, sort in time order; ORDER BY created_at and created_at >= ? rely on it.
 */
module TimeText {
  import opened Basics
  import opened Lexicographic

  // ---------------------------------------------------------------- calendar

  // Instants count nanoseconds from the start of year 0 of the proleptic Gregorian calendar.
  const NANOS_PER_SECOND: nat := 1_000_000_000
  const NANOS_PER_DAY: nat := 86_400_000_000_000

  datatype Civil = Civil(year: nat, month: nat, day: nat, hour: nat, minute: nat, second: nat, nano: nat)

  predicate Leap(y: nat) { y % 4 == 0 && (y % 100 != 0 || y % 400 == 0) }

  function DaysInYear(y: nat): nat { if Leap(y) then 366 else 365 }

  function DaysInMonth(y: nat, m: nat): nat {
    if m == 2 then (if Leap(y) then 29 else 28)
    else if m in {4, 6, 9, 11} then 30 else 31
  }

  function DaysBeforeYear(y: nat): nat {
    if y == 0 then 0 else DaysBeforeYear(y - 1) + DaysInYear(y - 1)
  }

  function DaysBeforeMonth(y: nat, m: nat): nat
    requires 1 <= m <= 13
  {
    if m == 1 then 0 else DaysBeforeMonth(y, m - 1) + DaysInMonth(y, m - 1)
  }

  predicate Valid(c: Civil) {
    1 <= c.month <= 12 && 1 <= c.day <= DaysInMonth(c.year, c.month)
    && c.hour < 24 && c.minute < 60 && c.second < 60 && c.nano < NANOS_PER_SECOND
  }

  function DayNumber(c: Civil): nat
    requires Valid(c)
  {
    DaysBeforeYear(c.year) + DaysBeforeMonth(c.year, c.month) + (c.day - 1)
  }

  function NanoOfDay(c: Civil): nat {
    ((c.hour * 60 + c.minute) * 60 + c.second) * NANOS_PER_SECOND + c.nano
  }

  function Instant(c: Civil): nat
    requires Valid(c)
  {
    DayNumber(c) * NANOS_PER_DAY + NanoOfDay(c)
  }

  lemma {:induction false} YearsMonotone(y: nat, z: nat)
    requires y <= z
    ensures DaysBeforeYear(y) + 365 * (z - y) <= DaysBeforeYear(z)
  {
    if y < z {
      YearsMonotone(y, z - 1);
    }
  }

  lemma {:induction false} MonthsMonotone(y: nat, m: nat, n: nat)
    requires 1 <= m <= n <= 13
    ensures DaysBeforeMonth(y, m) <= DaysBeforeMonth(y, n)
    ensures m < n ==> DaysBeforeMonth(y, m) + DaysInMonth(y, m) <= DaysBeforeMonth(y, n)
  {
    if m < n {
      MonthsMonotone(y, m, n - 1);
    }
  }

  lemma TwelveMonths(y: nat)
    ensures DaysBeforeMonth(y, 13) == DaysInYear(y)
  {
    var feb := DaysInMonth(y, 2);
    assert DaysBeforeMonth(y, 2) == 31 && DaysBeforeMonth(y, 3) == 31 + feb;
    assert DaysBeforeMonth(y, 4) == 62 + feb && DaysBeforeMonth(y, 5) == 92 + feb;
    assert DaysBeforeMonth(y, 6) == 123 + feb && DaysBeforeMonth(y, 7) == 153 + feb;
    assert DaysBeforeMonth(y, 8) == 184 + feb && DaysBeforeMonth(y, 9) == 215 + feb;
    assert DaysBeforeMonth(y, 10) == 245 + feb && DaysBeforeMonth(y, 11) == 276 + feb;
    assert DaysBeforeMonth(y, 12) == 306 + feb && DaysBeforeMonth(y, 13) == 337 + feb;
  }

  function YearFrom(day: nat, y: nat): (year: nat)
    requires DaysBeforeYear(y) <= day
    ensures DaysBeforeYear(year) <= day < DaysBeforeYear(year + 1)
    decreases day - DaysBeforeYear(y)
  {
    if day < DaysBeforeYear(y + 1) then y else YearFrom(day, y + 1)
  }

  function MonthFrom(y: nat, day: nat, m: nat): (month: nat)
    requires 1 <= m <= 12 && DaysBeforeMonth(y, m) <= day < DaysInYear(y)
    ensures m <= month <= 12 && DaysBeforeMonth(y, month) <= day < DaysBeforeMonth(y, month + 1)
    decreases 12 - m
  {
    TwelveMonths(y);
    if day < DaysBeforeMonth(y, m + 1) then m else MonthFrom(y, day, m + 1)
  }

  // What time.Time's UTC().Date() and Clock() report.
  function CivilOf(t: nat): (c: Civil)
    ensures Valid(c) && Instant(c) == t
  {
    var day, rest := t / NANOS_PER_DAY, t % NANOS_PER_DAY;
    var y := YearFrom(day, 0);
    var m := MonthFrom(y, day - DaysBeforeYear(y), 1);
    var s := rest / NANOS_PER_SECOND;
    Civil(y, m, day - DaysBeforeYear(y) - DaysBeforeMonth(y, m) + 1, s / 3600, s / 60 % 60, s % 60, rest % NANOS_PER_SECOND)
  }

  // ---------------------------------------------------------------- fields

  function Fields(c: Civil): seq<nat> { [c.year, c.month, c.day, c.hour, c.minute, c.second, c.nano] }

  predicate FieldsLess(a: seq<nat>, b: seq<nat>)
    requires |a| == |b|
  {
    a != [] && (a[0] < b[0] || (a[0] == b[0] && FieldsLess(a[1..], b[1..])))
  }

  lemma DateOrder(c: Civil, d: Civil)
    requires Valid(c) && Valid(d)
    requires c.year < d.year || (c.year == d.year && (c.month < d.month || (c.month == d.month && c.day < d.day)))
    ensures DayNumber(c) < DayNumber(d)
  {
    MonthsMonotone(c.year, c.month, 13);
    TwelveMonths(c.year);
    if c.year < d.year {
      YearsMonotone(c.year + 1, d.year);
    } else if c.month < d.month {
      MonthsMonotone(c.year, c.month, d.month);
    }
  }

  lemma FieldsOrder(c: Civil, d: Civil)
    requires Valid(c) && Valid(d) && FieldsLess(Fields(c), Fields(d))
    ensures Instant(c) < Instant(d)
  {
    FieldsUnfold(c, d);
    if (c.year, c.month, c.day) != (d.year, d.month, d.day) {
      DateOrder(c, d);
    } else {
      assert NanoOfDay(c) < NanoOfDay(d);
    }
    assert NanoOfDay(c) < NANOS_PER_DAY;
  }

  lemma FieldsUnfold(c: Civil, d: Civil)
    requires FieldsLess(Fields(c), Fields(d))
    ensures c.year < d.year || (c.year == d.year && (c.month < d.month || (c.month == d.month && (c.day < d.day
         || (c.day == d.day && (c.hour < d.hour || (c.hour == d.hour && (c.minute < d.minute || (c.minute == d.minute
         && (c.second < d.second || (c.second == d.second && c.nano < d.nano)))))))))))
  {
    var a, b := Fields(c), Fields(d);
    var a1, b1 := a[1..], b[1..];
    assert a1 == [c.month, c.day, c.hour, c.minute, c.second, c.nano];
    assert b1 == [d.month, d.day, d.hour, d.minute, d.second, d.nano];
    var a2, b2 := a1[1..], b1[1..];
    assert a2 == [c.day, c.hour, c.minute, c.second, c.nano] && b2 == [d.day, d.hour, d.minute, d.second, d.nano];
    var a3, b3 := a2[1..], b2[1..];
    assert a3 == [c.hour, c.minute, c.second, c.nano] && b3 == [d.hour, d.minute, d.second, d.nano];
    var a4, b4 := a3[1..], b3[1..];
    assert a4 == [c.minute, c.second, c.nano] && b4 == [d.minute, d.second, d.nano];
    var a5, b5 := a4[1..], b4[1..];
    assert a5 == [c.second, c.nano] && b5 == [d.second, d.nano];
    var a6, b6 := a5[1..], b5[1..];
    assert a6 == [c.nano] && b6 == [d.nano];
    assert a6[1..] == [] && !FieldsLess(a6[1..], b6[1..]);
    assert FieldsLess(a6, b6) ==> c.nano < d.nano;
    assert FieldsLess(a5, b5) ==> c.second < d.second || (c.second == d.second && FieldsLess(a6, b6));
    assert FieldsLess(a4, b4) ==> c.minute < d.minute || (c.minute == d.minute && FieldsLess(a5, b5));
    assert FieldsLess(a3, b3) ==> c.hour < d.hour || (c.hour == d.hour && FieldsLess(a4, b4));
    assert FieldsLess(a2, b2) ==> c.day < d.day || (c.day == d.day && FieldsLess(a3, b3));
    assert FieldsLess(a1, b1) ==> c.month < d.month || (c.month == d.month && FieldsLess(a2, b2));
  }

  lemma {:induction false} FieldsTotal(a: seq<nat>, b: seq<nat>)
    requires |a| == |b|
    ensures a == b || FieldsLess(a, b) || FieldsLess(b, a)
  {
    if a != [] && a[0] == b[0] {
      FieldsTotal(a[1..], b[1..]);
      assert a == [a[0]] + a[1..] && b == [b[0]] + b[1..];
    }
  }

  // ---------------------------------------------------------------- text

  // n in at least w decimal digits, zero-padded, as time.Format prints its fields.
  function Digits(n: nat, w: nat): string {
    if w == 0 && n == 0 then ""
    else Digits(n / 10, if w == 0 then 0 else w - 1) + [DigitChar(n % 10)]
  }

  function DigitChar(d: nat): char
    requires d < 10
  {
    '0' + d as char
  }

  function Pow10(w: nat): (p: nat)
    ensures p >= 1
  {
    if w == 0 then 1 else 10 * Pow10(w - 1)
  }

  // Each field followed by its separator.
  function Print(values: seq<nat>, widths: seq<nat>, separators: string): string
    requires |values| == |widths| == |separators|
  {
    if values == [] then ""
    else Digits(values[0], widths[0]) + ([separators[0]] + Print(values[1..], widths[1..], separators[1..]))
  }

  const WIDTHS: seq<nat> := [4, 2, 2, 2, 2, 2, 9]
  const SEPARATORS := "--T::.Z"

  // t.UTC().Format(timeLayout)
  function Format(t: nat): string {
    Print(Fields(CivilOf(t)), WIDTHS, SEPARATORS)
  }

  ghost predicate Fit(values: seq<nat>, widths: seq<nat>)
    requires |values| == |widths|
  {
    forall i :: 0 <= i < |values| ==> values[i] < Pow10(widths[i])
  }

  lemma {:induction false} DigitsLength(n: nat, w: nat)
    requires n < Pow10(w)
    ensures |Digits(n, w)| == w
  {
    if w > 0 {
      DigitsLength(n / 10, w - 1);
    }
  }

  lemma {:induction false} DigitsOrder(n: nat, m: nat, w: nat)
    requires n < Pow10(w) && m < Pow10(w)
    ensures Less(Digits(n, w), Digits(m, w)) <==> n < m
    ensures Digits(n, w) == Digits(m, w) <==> n == m
  {
    if w > 0 {
      DigitsOrder(n / 10, m / 10, w - 1);
      DigitsLength(n / 10, w - 1);
      DigitsLength(m / 10, w - 1);
      var a, b := Digits(n / 10, w - 1), Digits(m / 10, w - 1);
      var x, y := [DigitChar(n % 10)], [DigitChar(m % 10)];
      LessConcat(a, x, b, y);
      assert x[1..] == "" && y[1..] == "";
      assert (a + x)[..w - 1] == a && (b + y)[..w - 1] == b;
      assert (a + x)[w - 1] == x[0] && (b + y)[w - 1] == y[0];
    }
  }

  lemma {:induction false} PrintOrder(a: seq<nat>, b: seq<nat>, widths: seq<nat>, separators: string)
    requires |a| == |b| == |widths| == |separators| && Fit(a, widths) && Fit(b, widths)
    ensures |Print(a, widths, separators)| == |Print(b, widths, separators)|
    ensures Less(Print(a, widths, separators), Print(b, widths, separators)) <==> FieldsLess(a, b)
  {
    if a != [] {
      var restA, restB := Print(a[1..], widths[1..], separators[1..]), Print(b[1..], widths[1..], separators[1..]);
      PrintOrder(a[1..], b[1..], widths[1..], separators[1..]);
      DigitsOrder(a[0], b[0], widths[0]);
      DigitsLength(a[0], widths[0]);
      DigitsLength(b[0], widths[0]);
      LessConcat(Digits(a[0], widths[0]), [separators[0]] + restA, Digits(b[0], widths[0]), [separators[0]] + restB);
      LessConcat([separators[0]], restA, [separators[0]], restB);
      LessIrreflexive([separators[0]]);
    }
  }

  lemma FieldsFit(c: Civil)
    requires Valid(c) && c.year <= 9999
    ensures Fit(Fields(c), WIDTHS)
  {
    assert Pow10(2) == 100;
    assert Pow10(4) == 100 * Pow10(2);
    assert Pow10(6) == 100 * Pow10(4);
    assert Pow10(8) == 100 * Pow10(6);
    assert Pow10(9) == NANOS_PER_SECOND;
  }

  // For all instants of years 0 to 9999, text order is time order and all texts are equally long.
  lemma TextOrderIsTimeOrder(t: nat, u: nat)
    requires CivilOf(t).year <= 9999 && CivilOf(u).year <= 9999
    ensures Less(Format(t), Format(u)) <==> t < u
    ensures |Format(t)| == |Format(u)|
    ensures Format(t) == Format(u) <==> t == u
  {
    var c, d := CivilOf(t), CivilOf(u);
    FieldsFit(c);
    FieldsFit(d);
    PrintOrder(Fields(c), Fields(d), WIDTHS, SEPARATORS);
    FieldsTotal(Fields(c), Fields(d));
    LessIrreflexive(Format(t));
    if FieldsLess(Fields(c), Fields(d)) {
      FieldsOrder(c, d);
      PrintOrder(Fields(d), Fields(c), WIDTHS, SEPARATORS);
    } else if FieldsLess(Fields(d), Fields(c)) {
      FieldsOrder(d, c);
      PrintOrder(Fields(d), Fields(c), WIDTHS, SEPARATORS);
    } else {
      assert Fields(c) == Fields(d);
      assert c == d;
    }
  }

  // ---------------------------------------------------------------- parsing

  function DigitValue(c: char): Option<nat> {
    if '0' <= c <= '9' then Some((c - '0') as nat) else None
  }

  // A run of digits read as a number; None when a character is not a digit.
  function Number(s: string): Option<nat> {
    if s == "" then Some(0)
    else
      var init, last := Number(s[..|s| - 1]), DigitValue(s[|s| - 1]);
      if init.None? || last.None? then None else Some(10 * init.value + last.value)
  }

  function Scan(text: string, widths: seq<nat>, separators: string): Option<seq<nat>>
    requires |widths| == |separators|
  {
    if widths == [] then (if text == "" then Some([]) else None)
    else if |text| <= widths[0] || text[widths[0]] != separators[0] then None
    else
      var first, rest := Number(text[..widths[0]]), Scan(text[widths[0] + 1..], widths[1..], separators[1..]);
      if first.None? || rest.None? then None else Some([first.value] + rest.value)
  }

  // time.Parse(timeLayout, text) of a text in UTC: None stands for the parse error, also of an impossible date.
  function Parse(text: string): Option<nat> {
    var fields := Scan(text, WIDTHS, SEPARATORS);
    if fields.None? || |fields.value| != 7 then None
    else
      var f := fields.value;
      var c := Civil(f[0], f[1], f[2], f[3], f[4], f[5], f[6]);
      if Valid(c) then Some(Instant(c)) else None
  }

  lemma {:induction false} NumberOfDigits(n: nat, w: nat)
    requires n < Pow10(w)
    ensures Number(Digits(n, w)) == Some(n)
  {
    if w > 0 {
      NumberOfDigits(n / 10, w - 1);
      DigitsLength(n / 10, w - 1);
      assert Digits(n, w)[..w - 1] == Digits(n / 10, w - 1);
    }
  }

  lemma {:induction false} ScanOfPrint(values: seq<nat>, widths: seq<nat>, separators: string)
    requires |values| == |widths| == |separators| && Fit(values, widths)
    ensures Scan(Print(values, widths, separators), widths, separators) == Some(values)
  {
    if values != [] {
      var digits, rest := Digits(values[0], widths[0]), Print(values[1..], widths[1..], separators[1..]);
      DigitsLength(values[0], widths[0]);
      NumberOfDigits(values[0], widths[0]);
      ScanOfPrint(values[1..], widths[1..], separators[1..]);
      var text := digits + ([separators[0]] + rest);
      assert text[..widths[0]] == digits;
      assert text[widths[0] + 1..] == rest;
      assert values == [values[0]] + values[1..];
    }
  }

  // What was stored is read back to the nanosecond, so a row's timestamps never fail to decode.
  lemma ParseOfFormat(t: nat)
    requires CivilOf(t).year <= 9999
    ensures Parse(Format(t)) == Some(t)
  {
    FieldsFit(CivilOf(t));
    ScanOfPrint(Fields(CivilOf(t)), WIDTHS, SEPARATORS);
  }
}
