/**
 Timestamps outside the years 0 to 9999, which a `since` parameter can name through its zone offset: exactly when
 the printed texts still compare as the instants do.
 */
module TimeTextRange {
  import opened Lexicographic
  import opened TimeText

  // ---------------------------------------------------------------- dates and instants

  // A date is the one that CivilOf finds for its instant: printing and reading dates loses nothing.
  lemma CivilOfInstant(c: Civil)
    requires Valid(c)
    ensures CivilOf(Instant(c)) == c
  {
    var d := CivilOf(Instant(c));
    FieldsTotal(Fields(c), Fields(d));
    if FieldsLess(Fields(c), Fields(d)) {
      FieldsOrder(c, d);
    } else if FieldsLess(Fields(d), Fields(c)) {
      FieldsOrder(d, c);
    } else {
      assert Fields(c)[0] == Fields(d)[0] && Fields(c)[1] == Fields(d)[1] && Fields(c)[2] == Fields(d)[2];
      assert Fields(c)[3] == Fields(d)[3] && Fields(c)[4] == Fields(d)[4] && Fields(c)[5] == Fields(d)[5];
      assert Fields(c)[6] == Fields(d)[6];
    }
  }

  lemma LaterYear(t: nat, u: nat)
    requires t < u
    ensures CivilOf(t).year <= CivilOf(u).year
  {
    var c, d := CivilOf(t), CivilOf(u);
    if d.year < c.year {
      assert FieldsLess(Fields(d), Fields(c));
      FieldsOrder(d, c);
    }
  }

  // ---------------------------------------------------------------- years of more than four digits

  // The number of digits that a year is printed with.
  function Width(year: nat): (w: nat)
    ensures w >= 4
  {
    if year < 10000 then 4 else Width(year / 10) + 1
  }

  // The number that the first w digits of a year make.
  function Lead(year: nat, w: nat): nat {
    if year < Pow10(w) then year else Lead(year / 10, w)
  }

  lemma FourDigits()
    ensures Pow10(3) == 1000 && Pow10(4) == 10000
  {
    assert Pow10(1) == 10 && Pow10(2) == 100;
  }

  // Padding does not show in a number that is wide enough.
  lemma {:induction false} PaddingHidden(n: nat, w: nat)
    requires n >= Pow10(w)
    ensures Digits(n, w) == Digits(n, w + 1)
  {
    if w > 0 {
      PaddingHidden(n / 10, w - 1);
    }
  }

  lemma {:induction false} YearDigits(year: nat)
    ensures Digits(year, 4) == Digits(year, Width(year)) && year < Pow10(Width(year))
    ensures year >= 10000 ==> Digits(year, 4) == Digits(year / 10, 4) + [DigitChar(year % 10)]
    ensures year >= 10000 ==> year >= Pow10(Width(year) - 1)
  {
    FourDigits();
    if year >= 10000 {
      YearDigits(year / 10);
      PaddingHidden(year / 10, 3);
      if year / 10 < 10000 {
        assert Width(year) == 5;
      }
    }
  }

  // A year's digits begin with those of its lead; what follows is digits.
  lemma {:induction false} LeadDigits(year: nat, w: nat) returns (rest: string)
    requires w >= 4 && (w == 4 || year >= Pow10(w - 1))
    ensures Lead(year, w) < Pow10(w) && Digits(year, 4) == Digits(Lead(year, w), w) + rest
    ensures rest == "" <==> year < Pow10(w)
    ensures rest != "" ==> rest[0] >= '0'
  {
    FourDigits();
    YearDigits(year);
    if year < Pow10(w) {
      WidthIs(year, w);
      rest := "";
    } else {
      TenTimes(w);
      var shorter := LeadDigits(year / 10, w);
      rest := shorter + [DigitChar(year % 10)];
    }
  }

  lemma {:induction false} TenTimes(w: nat)
    requires w >= 4
    ensures Pow10(w) == 10 * Pow10(w - 1) && Pow10(w) >= 10000
  {
    FourDigits();
    if w > 4 {
      TenTimes(w - 1);
    }
  }

  lemma {:induction false} WidthIs(year: nat, w: nat)
    requires w >= 4 && year < Pow10(w) && (w == 4 || year >= Pow10(w - 1))
    ensures Width(year) == w
  {
    FourDigits();
    if w > 4 {
      TenTimes(w);
      TenTimes(w - 1);
      WidthIs(year / 10, w - 1);
    }
  }

  // ---------------------------------------------------------------- the order of texts, for all instants

  function AfterYear(t: nat): string {
    Print(Fields(CivilOf(t))[1..], WIDTHS[1..], SEPARATORS[1..])
  }

  lemma FormatSplits(t: nat)
    ensures Format(t) == Digits(CivilOf(t).year, 4) + (['-'] + AfterYear(t))
  {
    assert Fields(CivilOf(t))[0] == CivilOf(t).year;
  }

  // For t before u, the texts compare the right way exactly when the year of t is no greater than the number made by
  // as many digits of the year of u. Within years of one width, and so for years 0 to 9999, this always holds.
  lemma TextOrderExact(t: nat, u: nat)
    requires t < u
    ensures Less(Format(t), Format(u)) <==> CivilOf(t).year <= Lead(CivilOf(u).year, Width(CivilOf(t).year))
  {
    var a, b := CivilOf(t).year, CivilOf(u).year;
    LaterYear(t, u);
    FormatSplits(t);
    FormatSplits(u);
    YearsCompare(a, b, ['-'] + AfterYear(t), ['-'] + AfterYear(u));
    if a == b {
      SameYear(t, u);
    }
  }

  // Two printed years followed by a hyphen and a rest.
  lemma YearsCompare(a: nat, b: nat, x: string, y: string)
    requires a <= b && x != "" && x[0] == '-'
    ensures Less(Digits(a, 4) + x, Digits(b, 4) + y) <==> a <= Lead(b, Width(a)) && (a == b ==> Less(x, y))
  {
    YearDigits(a);
    var rest := LeadDigits(b, Width(a));
    LeadBelow(b, Width(a));
    DigitsCompare(a, Lead(b, Width(a)), Width(a));
    LessAfter(Digits(a, 4), x, Digits(Lead(b, Width(a)), Width(a)), rest, y);
  }

  // Texts of one length, the second followed by something that sorts after a hyphen, or by nothing.
  lemma LessAfter(a: string, x: string, b: string, rest: string, y: string)
    requires |a| == |b| && x != "" && x[0] == '-' && (rest != "" ==> rest[0] >= '0')
    ensures Less(a + x, b + rest + y) <==> Less(a, b) || (a == b && (rest == "" ==> Less(x, y)))
  {
    assert b + rest + y == b + (rest + y);
    LessConcat(a, x, b, rest + y);
    assert rest == "" ==> rest + y == y;
    assert rest != "" ==> (rest + y)[0] == rest[0];
  }

  lemma DigitsCompare(a: nat, b: nat, w: nat)
    requires a < Pow10(w) && b < Pow10(w)
    ensures |Digits(a, w)| == |Digits(b, w)|
    ensures Less(Digits(a, w), Digits(b, w)) <==> a < b
    ensures Digits(a, w) == Digits(b, w) <==> a == b
  {
    DigitsOrder(a, b, w);
    DigitsLength(a, w);
    DigitsLength(b, w);
  }

  lemma {:induction false} LeadBelow(b: nat, w: nat)
    ensures Lead(b, w) <= b && (Lead(b, w) == b <==> b < Pow10(w))
  {
    if b >= Pow10(w) {
      LeadBelow(b / 10, w);
    }
  }

  // Within a year the rest of the text decides.
  lemma SameYear(t: nat, u: nat)
    requires t < u && CivilOf(t).year == CivilOf(u).year
    ensures Less(['-'] + AfterYear(t), ['-'] + AfterYear(u))
  {
    var c, d := CivilOf(t), CivilOf(u);
    FieldsTotal(Fields(c), Fields(d));
    if FieldsLess(Fields(d), Fields(c)) {
      FieldsOrder(d, c);
    }
    TailFits(c);
    TailFits(d);
    assert Fields(c) != Fields(d);
    PrintOrder(Fields(c)[1..], Fields(d)[1..], WIDTHS[1..], SEPARATORS[1..]);
    LessConcat(['-'], AfterYear(t), ['-'], AfterYear(u));
  }

  lemma TailFits(c: Civil)
    requires Valid(c)
    ensures Fit(Fields(c)[1..], WIDTHS[1..])
  {
    FieldsFit(c.(year := 0, day := 1));
    assert Pow10(2) == 100;
    var e := c.(year := 0, day := 1);
    assert forall i :: 1 <= i < 7 && i != 2 ==> Fields(c)[i] == Fields(e)[i];
  }

  // ---------------------------------------------------------------- the bound of a time filter

  // Instants before year 0 count down; 400 years, a whole number of calendar cycles, are enough for any zone offset.
  const ERA: nat := DaysBeforeYear(400) * NANOS_PER_DAY

  // since.UTC().Format(timeLayout): a negative year is printed with its sign.
  function FormatBound(t: int): string
    requires t + ERA >= 0
  {
    if t >= 0 then Format(t)
    else
      var c := CivilOf(t + ERA);
      "-" + Print(Fields(c)[0 := if c.year < 400 then 400 - c.year else 0], WIDTHS, SEPARATORS)
  }

  lemma FirstIsDigit(t: nat)
    ensures Format(t) != "" && '0' <= Format(t)[0]
  {
    FormatSplits(t);
    DigitsNotEmpty(CivilOf(t).year, 4);
  }

  lemma {:induction false} DigitsNotEmpty(n: nat, w: nat)
    requires w > 0
    ensures Digits(n, w) != "" && '0' <= Digits(n, w)[0]
  {
    var rest := Digits(n / 10, w - 1);
    if w > 1 {
      DigitsNotEmpty(n / 10, w - 1);
    } else if rest != "" {
      DigitsStart(n / 10);
    }
  }

  lemma {:induction false} DigitsStart(n: nat)
    ensures Digits(n, 0) != "" ==> '0' <= Digits(n, 0)[0]
  {
    if n >= 10 {
      DigitsStart(n / 10);
    }
  }

  // `created_at >= since` on text, for a row of years 0 to 9999 and any bound: it gives the right answer exactly when
  // the bound is before year 10000, or the row's year is no greater than the bound's first four digits.
  lemma FilterExact(row: nat, since: int)
    requires CivilOf(row).year <= 9999 && since + ERA >= 0
    ensures (!Less(Format(row), FormatBound(since)) <==> row >= since)
       <==> since < 0 || CivilOf(since).year <= 9999 || CivilOf(row).year <= Lead(CivilOf(since).year, 4)
  {
    if since < 0 {
      FirstIsDigit(row);
      assert FormatBound(since)[0] == '-';
    } else if CivilOf(since).year <= 9999 {
      TextOrderIsTimeOrder(row, since);
    } else {
      if since <= row {
        if since < row {
          LaterYear(since, row);
        }
        assert false;
      }
      TextOrderExact(row, since);
    }
  }

  lemma AtDate(c: Civil) returns (t: nat)
    requires Valid(c)
    ensures CivilOf(t) == c
  {
    t := Instant(c);
    CivilOfInstant(c);
  }

  lemma LeadOf10000()
    ensures Lead(10000, 4) == 1000
  {
    FourDigits();
  }

  // No row is at or after a later bound, and yet every row whose year exceeds the bound's first four digits passes.
  lemma LateBound(row: nat, since: nat)
    requires Lead(CivilOf(since).year, 4) < CivilOf(row).year <= 9999 < CivilOf(since).year
    ensures row < since && !Less(Format(row), FormatBound(since))
  {
    if since < row {
      LaterYear(since, row);
    }
    FilterExact(row, since);
  }

  // The handler accepts such a bound: 9999-12-31T23:59:59-01:00 names an instant of year 10000.
  lemma AcceptedSinceMatchesAll(row: nat) returns (since: nat)
    requires 1000 < CivilOf(row).year <= 9999
    ensures CivilOf(since) == Civil(10000, 1, 1, 0, 59, 59, 0)
    ensures row < since && !Less(Format(row), FormatBound(since))
  {
    since := AtDate(Civil(10000, 1, 1, 0, 59, 59, 0));
    LeadOf10000();
    LateBound(row, since);
  }
}
