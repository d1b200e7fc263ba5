/**
  Calendar dates and the intake form's date parser. A date is a
  proleptic-Gregorian `(year, month, day)` triple, as Python's `date`;
  `Ordinal` is its day count (`date.toordinal`), and the two orderings agree.

  `ValFecha` strips the text and tries five `strptime` formats in a fixed
  order, keeping the first that matches the whole text:
  `%d-%b-%y`, `%d/%m/%Y`, `%Y-%m-%d`, `%d-%m-%Y`, `%d-%b-%Y`.
  No field of these formats can hold a separator, so a format matches
  exactly when the text splits at its separator into three fields that
  each satisfy their own grammar and together name a real day.
 */
module Dates {
  import opened Strings

  datatype Date = Date(year: int, month: int, day: int)

  predicate IsLeap(y: int) {
    y % 4 == 0 && (y % 100 != 0 || y % 400 == 0)
  }

  function DaysInMonth(y: int, m: int): (n: int)
    requires 1 <= m <= 12
    ensures 28 <= n <= 31
    ensures m == 2 ==> (n == 29 <==> IsLeap(y))
  {
    if m == 2 then (if IsLeap(y) then 29 else 28)
    else if m == 4 || m == 6 || m == 9 || m == 11 then 30
    else 31
  }

  /** A day that exists, in the years Python's `date` can hold. */
  predicate Valid(d: Date) {
    1 <= d.year <= 9999 && 1 <= d.month <= 12 && 1 <= d.day <= DaysInMonth(d.year, d.month)
  }

  function YearLength(y: int): int {
    if IsLeap(y) then 366 else 365
  }

  /** Days in the years before `y`, counting from year 1. */
  function DaysBeforeYear(y: int): nat
    requires y >= 1
    decreases y
  {
    if y == 1 then 0 else DaysBeforeYear(y - 1) + YearLength(y - 1)
  }

  /** Days in the months of year `y` before month `m`. */
  function DaysBeforeMonth(y: int, m: int): nat
    requires 1 <= m <= 13
    decreases m
  {
    if m == 1 then 0 else DaysBeforeMonth(y, m - 1) + DaysInMonth(y, m - 1)
  }

  /** `date.toordinal()`: 1 January of year 1 is day 1. */
  function Ordinal(d: Date): int
    requires Valid(d)
  {
    DaysBeforeYear(d.year) + DaysBeforeMonth(d.year, d.month) + d.day
  }

  /** The order Python's `<` puts on dates: by year, then month, then day. */
  predicate Before(a: Date, b: Date) {
    a.year < b.year
    || (a.year == b.year && a.month < b.month)
    || (a.year == b.year && a.month == b.month && a.day < b.day)
  }

  /** `(b - a).days` for two valid dates. */
  function DaysBetween(a: Date, b: Date): int
    requires Valid(a) && Valid(b)
  {
    Ordinal(b) - Ordinal(a)
  }

  // ------------------------------------------------------------ day counts

  lemma WholeYearOfMonths(y: int)
    ensures DaysBeforeMonth(y, 13) == YearLength(y)
  {
    assert DaysBeforeMonth(y, 3) == 31 + DaysInMonth(y, 2);
    assert DaysBeforeMonth(y, 7) == DaysBeforeMonth(y, 3) + 122;
    assert DaysBeforeMonth(y, 13) == DaysBeforeMonth(y, 7) + 184;
  }

  lemma {:induction false} DaysBeforeMonthGrows(y: int, m: int, n: int)
    requires 1 <= m <= n <= 13
    ensures DaysBeforeMonth(y, m) <= DaysBeforeMonth(y, n)
    decreases n - m
  {
    if m < n {
      DaysBeforeMonthGrows(y, m, n - 1);
    }
  }

  /** A valid date's day number within its year is at most the year's length. */
  lemma DayOfYearBound(d: Date)
    requires Valid(d)
    ensures DaysBeforeMonth(d.year, d.month) + d.day <= YearLength(d.year)
  {
    DaysBeforeMonthGrows(d.year, d.month + 1, 13);
    WholeYearOfMonths(d.year);
  }

  lemma {:induction false} DaysBeforeYearGrows(a: int, b: int)
    requires 1 <= a < b
    ensures DaysBeforeYear(a) + YearLength(a) <= DaysBeforeYear(b)
    decreases b - a
  {
    if a + 1 < b {
      DaysBeforeYearGrows(a, b - 1);
    }
  }

  lemma OrdinalBefore(a: Date, b: Date)
    requires Valid(a) && Valid(b) && Before(a, b)
    ensures Ordinal(a) < Ordinal(b)
  {
    if a.year < b.year {
      EarlierYear(a, b);
    } else if a.month < b.month {
      EarlierMonth(a, b);
    }
  }

  /** A date of an earlier year has a smaller day count. */
  lemma EarlierYear(a: Date, b: Date)
    requires Valid(a) && Valid(b) && a.year < b.year
    ensures Ordinal(a) < Ordinal(b)
  {
    DayOfYearBound(a);
    DaysBeforeYearGrows(a.year, b.year);
  }

  /** A date of an earlier month of the same year has a smaller day count. */
  lemma EarlierMonth(a: Date, b: Date)
    requires Valid(a) && Valid(b) && a.year == b.year && a.month < b.month
    ensures Ordinal(a) < Ordinal(b)
  {
    DaysBeforeMonthGrows(a.year, a.month + 1, b.month);
    assert DaysBeforeMonth(a.year, a.month + 1) == DaysBeforeMonth(a.year, a.month) + DaysInMonth(a.year, a.month);
  }

  /** Comparing dates is comparing their day counts. */
  lemma OrdinalOrder(a: Date, b: Date)
    requires Valid(a) && Valid(b)
    ensures Before(a, b) <==> Ordinal(a) < Ordinal(b)
    ensures a == b <==> Ordinal(a) == Ordinal(b)
  {
    if Before(a, b) {
      OrdinalBefore(a, b);
    } else if Before(b, a) {
      OrdinalBefore(b, a);
    }
  }

  // ---------------------------------------------------------------- fields

  /** Two ASCII digits read as a number. */
  function TwoDigits(s: string): (r: Option<int>)
    ensures r.Some? <==> |s| == 2 && IsDigit(s[0]) && IsDigit(s[1])
    ensures r.Some? ==> 0 <= r.value <= 99
  {
    if |s| == 2 && IsDigit(s[0]) && IsDigit(s[1]) then Some(10 * DigitValue(s[0]) + DigitValue(s[1])) else None
  }

  /** `%d`: `01`..`31`, or one digit `1`..`9`, or a space and one digit. */
  function DayField(s: string): (r: Option<int>)
    ensures r.Some? ==> 1 <= r.value <= 31
    ensures |s| == 2 && IsDigit(s[0]) && IsDigit(s[1]) ==> r == (if 1 <= TwoDigits(s).value <= 31 then TwoDigits(s) else None)
    ensures |s| != 1 && |s| != 2 ==> r.None?
  {
    if |s| == 2 && IsDigit(s[0]) && IsDigit(s[1]) then
      var v := TwoDigits(s).value;
      if 1 <= v <= 31 then Some(v) else None
    else if |s| == 1 && IsDigit(s[0]) && s[0] != '0' then Some(DigitValue(s[0]))
    else if |s| == 2 && s[0] == ' ' && IsDigit(s[1]) && s[1] != '0' then Some(DigitValue(s[1]))
    else None
  }

  /** `%m`: `01`..`12`, or one digit `1`..`9`. */
  function MonthField(s: string): (r: Option<int>)
    ensures r.Some? ==> 1 <= r.value <= 12
    ensures |s| == 2 && IsDigit(s[0]) && IsDigit(s[1]) ==> r == (if 1 <= TwoDigits(s).value <= 12 then TwoDigits(s) else None)
    ensures |s| != 1 && |s| != 2 ==> r.None?
  {
    if |s| == 2 && IsDigit(s[0]) && IsDigit(s[1]) then
      var v := TwoDigits(s).value;
      if 1 <= v <= 12 then Some(v) else None
    else if |s| == 1 && IsDigit(s[0]) && s[0] != '0' then Some(DigitValue(s[0]))
    else None
  }

  /** The English month abbreviations, as `%b` matches them once lower-cased. */
  const MonthAbbrs: seq<string> :=
    ["jan", "feb", "mar", "apr", "may", "jun", "jul", "aug", "sep", "oct", "nov", "dec"]

  predicate IsLowerAscii(c: char) {
    'a' <= c <= 'z'
  }

  function LowerAscii(c: char): char {
    if 'A' <= c <= 'Z' then (c as int - 'A' as int + 'a' as int) as char else c
  }

  function UpperAscii(c: char): char {
    if IsLowerAscii(c) then (c as int - 'a' as int + 'A' as int) as char else c
  }

  function Lower(s: string): (r: string)
    ensures |r| == |s| && forall i :: 0 <= i < |s| ==> r[i] == LowerAscii(s[i])
  {
    seq(|s|, i requires 0 <= i < |s| => LowerAscii(s[i]))
  }

  lemma MonthAbbrsShape()
    ensures |MonthAbbrs| == 12
    ensures forall i :: 0 <= i < 12 ==> |MonthAbbrs[i]| == 3
    ensures forall i, j :: 0 <= i < 12 && 0 <= j < 3 ==> IsLowerAscii(MonthAbbrs[i][j])
  {
  }

  lemma MonthAbbrsDistinct()
    ensures forall i, j :: 0 <= i < j < 12 ==> MonthAbbrs[i] != MonthAbbrs[j]
  {
  }

  /** `%b`: a month abbreviation in any mix of case; its number. */
  function MonthName(s: string): (r: Option<int>)
    ensures r.Some? <==> |s| == 3 && Lower(s) in MonthAbbrs
    ensures r.Some? ==> 1 <= r.value <= 12 && MonthAbbrs[r.value - 1] == Lower(s)
  {
    if |s| == 3 && Lower(s) in MonthAbbrs then
      var k := IndexOfName(MonthAbbrs, Lower(s));
      Some(k + 1)
    else None
  }

  function IndexOfName(names: seq<string>, x: string): (k: nat)
    requires x in names
    ensures k < |names| && names[k] == x
    ensures forall i :: 0 <= i < k ==> names[i] != x
  {
    if names[0] == x then 0 else 1 + IndexOfName(names[1..], x)
  }

  /** `%y`: two digits; `00`..`68` are 2000-2068 and `69`..`99` are 1969-1999. */
  function ShortYear(s: string): (r: Option<int>)
    ensures r.Some? <==> TwoDigits(s).Some?
    ensures r.Some? ==> 1969 <= r.value <= 2068 && r.value % 100 == TwoDigits(s).value
  {
    match TwoDigits(s)
    case None => None
    case Some(v) => Some(if v <= 68 then 2000 + v else 1900 + v)
  }

  /** `%Y`: exactly four digits. */
  function LongYear(s: string): (r: Option<int>)
    ensures r.Some? <==> |s| == 4 && AllDigits(s)
    ensures r.Some? ==> r.value == DigitsValue(s) && 0 <= r.value <= 9999
  {
    if |s| == 4 && AllDigits(s) then
      DigitsBelow(s);
      Some(DigitsValue(s))
    else None
  }

  lemma {:induction false} DigitsBelow(s: string)
    requires AllDigits(s)
    ensures DigitsValue(s) < Pow10(|s|)
  {
    if s != [] {
      DigitsBelow(s[..|s| - 1]);
    }
  }

  // --------------------------------------------------------------- formats

  /** The five formats, named after their `strptime` patterns. */
  datatype Format =
    | DayAbbrShortYear   // %d-%b-%y
    | DaySlashMonth      // %d/%m/%Y
    | YearMonthDay       // %Y-%m-%d
    | DayDashMonth       // %d-%m-%Y
    | DayAbbrYear        // %d-%b-%Y

  /** The order in which `val_fecha` tries them. */
  const Formats: seq<Format> := [DayAbbrShortYear, DaySlashMonth, YearMonthDay, DayDashMonth, DayAbbrYear]

  function Sep(k: Format): char {
    if k == DaySlashMonth then '/' else '-'
  }

  predicate Free(s: string, c: char) {
    forall i :: 0 <= i < |s| ==> s[i] != c
  }

  /** The three fields of `a<sep>b<sep>c`, the first two free of `sep`. */
  function Split3(t: string, sep: char): (r: Option<(string, string, string)>)
    ensures r.Some? ==> t == r.value.0 + [sep] + r.value.1 + [sep] + r.value.2
    ensures r.Some? ==> Free(r.value.0, sep) && Free(r.value.1, sep)
    ensures Free(t, sep) ==> r.None?
  {
    var i := IndexOf(t, sep);
    if i == |t| then None
    else
      var rest := t[i + 1..];
      var j := IndexOf(rest, sep);
      if j == |rest| then None
      else
        assert t == t[..i] + [sep] + rest[..j] + [sep] + rest[j + 1..];
        Some((t[..i], rest[..j], rest[j + 1..]))
  }

  lemma Split3Parts(a: string, b: string, c: string, sep: char)
    requires Free(a, sep) && Free(b, sep)
    ensures Split3(a + [sep] + b + [sep] + c, sep) == Some((a, b, c))
  {
    var t := a + [sep] + b + [sep] + c;
    assert t == a + [sep] + (b + [sep] + c);
    IndexOfAfter(a, sep, b + [sep] + c);
    assert t[..|a|] == a;
    assert t[|a| + 1..] == b + [sep] + c;
    IndexOfAfter(b, sep, c);
    assert (b + [sep] + c)[..|b|] == b;
    assert (b + [sep] + c)[|b| + 1..] == c;
  }

  /** The date named by a year, a month and a day field, when all three parsed and the day exists. */
  function MakeDate(year: Option<int>, month: Option<int>, day: Option<int>): (r: Option<Date>)
    ensures r.Some? <==> year.Some? && month.Some? && day.Some? && Valid(Date(year.value, month.value, day.value))
    ensures r.Some? ==> r.value == Date(year.value, month.value, day.value)
  {
    if year.Some? && month.Some? && day.Some? && Valid(Date(year.value, month.value, day.value)) then
      Some(Date(year.value, month.value, day.value))
    else None
  }

  /** The date a format's three fields name, in the order the format writes them. */
  function FieldsDate(k: Format, a: string, b: string, c: string): (r: Option<Date>)
    ensures r.Some? ==> Valid(r.value)
  {
    match k
    case DayAbbrShortYear => MakeDate(ShortYear(c), MonthName(b), DayField(a))
    case DaySlashMonth => MakeDate(LongYear(c), MonthField(b), DayField(a))
    case YearMonthDay => MakeDate(LongYear(a), MonthField(b), DayField(c))
    case DayDashMonth => MakeDate(LongYear(c), MonthField(b), DayField(a))
    case DayAbbrYear => MakeDate(LongYear(c), MonthName(b), DayField(a))
  }

  /** `datetime.strptime(t, fmt).date()` for one of the five formats; `None` where it raises. */
  function ParseFormat(k: Format, t: string): (r: Option<Date>)
    ensures r.Some? ==> Valid(r.value)
  {
    match Split3(t, Sep(k))
    case None => None
    case Some((a, b, c)) => FieldsDate(k, a, b, c)
  }

  /** What each of the five formats makes of `t`, in the order they are tried. */
  function Attempts(t: string): (r: seq<Option<Date>>)
    ensures |r| == |Formats| && forall i :: 0 <= i < |Formats| ==> r[i] == ParseFormat(Formats[i], t)
  {
    seq(|Formats|, i requires 0 <= i < |Formats| => ParseFormat(Formats[i], t))
  }

  /** The first present value of `rs`. */
  function FirstSome<T>(rs: seq<Option<T>>): Option<T> {
    if rs == [] then None
    else if rs[0].Some? then rs[0]
    else FirstSome(rs[1..])
  }

  /** The `(date, error)` pair `val_fecha` returns. */
  datatype DateChecked = DateChecked(value: Option<Date>, error: Option<string>)

  function FormatError(campo: string): string {
    campo + ": formato inválido (ej: 5-May-19 o 05/05/2019)"
  }

  /** `val_fecha(text, campo)`. */
  function ValFecha(text: string, campo: string): (r: DateChecked)
    ensures r.value.Some? != r.error.Some?
    ensures IsBlank(text) ==> r.error == Some(campo + " es obligatoria")
    ensures !IsBlank(text) ==> r.value == FirstSome(Attempts(Strip(text)))
    ensures !IsBlank(text) && r.value.None? ==> r.error == Some(FormatError(campo))
    ensures r.value.Some? ==> Valid(r.value.value)
  {
    if IsBlank(text) then DateChecked(None, Some(campo + " es obligatoria"))
    else
      var t := Strip(text);
      FirstSomeValid(Attempts(t));
      match FirstSome(Attempts(t))
      case Some(d) => DateChecked(Some(d), None)
      case None => DateChecked(None, Some(FormatError(campo)))
  }

  // ----------------------------------------------------------- first match

  lemma {:induction false} FirstSomeValid(rs: seq<Option<Date>>)
    requires forall i :: 0 <= i < |rs| && rs[i].Some? ==> Valid(rs[i].value)
    ensures FirstSome(rs).Some? ==> Valid(FirstSome(rs).value)
  {
    if rs != [] && rs[0].None? {
      assert forall i :: 0 <= i < |rs[1..]| ==> rs[1..][i] == rs[i + 1];
      FirstSomeValid(rs[1..]);
    }
  }

  /** A present value with none present before it is the first present value. */
  lemma {:induction false} FirstSomeAt<T>(rs: seq<Option<T>>, i: nat)
    requires i < |rs| && rs[i].Some?
    requires forall j :: 0 <= j < i ==> rs[j].None?
    ensures FirstSome(rs) == rs[i]
  {
    if i > 0 {
      assert rs[1..][i - 1] == rs[i];
      assert forall j :: 0 <= j < i - 1 ==> rs[1..][j] == rs[j + 1];
      FirstSomeAt(rs[1..], i - 1);
    }
  }

  /** The first present value sits at an index with nothing present before it. */
  lemma {:induction false} FirstSomeWitness<T>(rs: seq<Option<T>>) returns (i: nat)
    requires FirstSome(rs).Some?
    ensures i < |rs| && rs[i] == FirstSome(rs)
    ensures forall j :: 0 <= j < i ==> rs[j].None?
  {
    if rs[0].Some? {
      i := 0;
    } else {
      var k := FirstSomeWitness(rs[1..]);
      i := k + 1;
      assert rs[i] == rs[1..][k];
      forall j | 0 <= j < i ensures rs[j].None? {
        if j > 0 {
          assert rs[j] == rs[1..][j - 1];
        }
      }
    }
  }

  lemma {:induction false} FirstSomeNone<T>(rs: seq<Option<T>>)
    ensures FirstSome(rs).None? <==> forall i :: 0 <= i < |rs| ==> rs[i].None?
  {
    if rs != [] {
      FirstSomeNone(rs[1..]);
      assert forall i :: 1 <= i < |rs| ==> rs[i] == rs[1..][i - 1];
    }
  }

  /** A format that matches the stripped text, with none before it matching, gives its date. */
  lemma ValFechaMatchAt(text: string, campo: string, i: nat)
    requires !IsBlank(text) && i < |Formats|
    requires ParseFormat(Formats[i], Strip(text)).Some?
    requires forall j :: 0 <= j < i ==> ParseFormat(Formats[j], Strip(text)).None?
    ensures ValFecha(text, campo).value == ParseFormat(Formats[i], Strip(text))
  {
    var rs := Attempts(Strip(text));
    assert forall j :: 0 <= j < i ==> rs[j].None?;
    FirstSomeAt(rs, i);
  }

  /** A date found is that of a matching format with none before it matching. */
  lemma ValFechaMatchWitness(text: string, campo: string) returns (i: nat)
    requires ValFecha(text, campo).value.Some?
    ensures !IsBlank(text) && i < |Formats|
    ensures ValFecha(text, campo).value == ParseFormat(Formats[i], Strip(text))
    ensures forall j :: 0 <= j < i ==> ParseFormat(Formats[j], Strip(text)).None?
  {
    var rs := Attempts(Strip(text));
    i := FirstSomeWitness(rs);
    assert forall j :: 0 <= j < i ==> rs[j] == ParseFormat(Formats[j], Strip(text));
  }

  /** A non-blank text gets the format error exactly when none of the five formats matches it. */
  lemma ValFechaNoFormat(text: string, campo: string)
    requires !IsBlank(text)
    ensures var t := Strip(text);
            ValFecha(text, campo).error == Some(FormatError(campo)) <==>
            forall i :: 0 <= i < |Formats| ==> ParseFormat(Formats[i], t).None?
  {
    FirstSomeNone(Attempts(Strip(text)));
  }

  // ------------------------------------------------------------- rendering

  /** `n` written with exactly `w` digits, zero-padded. */
  function Pad(n: nat, w: nat): (r: string)
    requires n < Pow10(w)
    ensures |r| == w && AllDigits(r) && DigitsValue(r) == n
  {
    if w == 0 then []
    else
      var r := Pad(n / 10, w - 1) + [Digit(n % 10)];
      assert r[..|r| - 1] == Pad(n / 10, w - 1);
      r
  }

  /** A month abbreviation with its first letter capitalised, as `%b` writes it. */
  function MonthTitle(m: int): (r: string)
    requires 1 <= m <= 12
    ensures |r| == 3
  {
    MonthAbbrsShape();
    var s := MonthAbbrs[m - 1];
    [UpperAscii(s[0])] + s[1..]
  }

  /** The years a format can write: `%y` only covers 1969-2068. */
  predicate Renderable(k: Format, d: Date) {
    Valid(d) && (k == DayAbbrShortYear ==> 1969 <= d.year <= 2068)
  }

  /** The three fields `d.strftime(fmt)` writes, day and month zero-padded. */
  function RenderFields(k: Format, d: Date): (string, string, string)
    requires Renderable(k, d)
  {
    match k
    case DayAbbrShortYear => (Pad(d.day, 2), MonthTitle(d.month), Pad(d.year % 100, 2))
    case DaySlashMonth => (Pad(d.day, 2), Pad(d.month, 2), Pad(d.year, 4))
    case YearMonthDay => (Pad(d.year, 4), Pad(d.month, 2), Pad(d.day, 2))
    case DayDashMonth => (Pad(d.day, 2), Pad(d.month, 2), Pad(d.year, 4))
    case DayAbbrYear => (Pad(d.day, 2), MonthTitle(d.month), Pad(d.year, 4))
  }

  function Render(k: Format, d: Date): string
    requires Renderable(k, d)
  {
    var (a, b, c) := RenderFields(k, d);
    a + [Sep(k)] + b + [Sep(k)] + c
  }

  /** The title-case abbreviation is three letters and lowers back to the table's entry. */
  lemma TitleLowers(m: int)
    requires 1 <= m <= 12
    ensures var s := MonthTitle(m);
            |s| == 3 && Lower(s) == MonthAbbrs[m - 1]
            && forall i :: 0 <= i < 3 ==> 'A' <= s[i] <= 'Z' || IsLowerAscii(s[i])
  {
    MonthAbbrsShape();
    var s := MonthTitle(m);
    var x := MonthAbbrs[m - 1];
    assert Lower(s) == x by {
      forall i | 0 <= i < 3 ensures Lower(s)[i] == x[i] {
        assert IsLowerAscii(x[i]);
      }
    }
    forall i | 0 <= i < 3 ensures 'A' <= s[i] <= 'Z' || IsLowerAscii(s[i]) {
      assert IsLowerAscii(x[i]);
    }
  }

  lemma MonthTitleReads(m: int)
    requires 1 <= m <= 12
    ensures MonthName(MonthTitle(m)) == Some(m)
    ensures !IsDigit(MonthTitle(m)[0]) && Free(MonthTitle(m), '-') && Free(MonthTitle(m), '/')
  {
    var s := MonthTitle(m);
    TitleLowers(m);
    MonthAbbrsDistinct();
    var r := MonthName(s);
    assert r.Some? && MonthAbbrs[r.value - 1] == MonthAbbrs[m - 1];
  }


  lemma TwoDigitsOfPad(n: nat)
    requires n < 100
    ensures TwoDigits(Pad(n, 2)) == Some(n)
  {
    var s := Pad(n, 2);
    assert s[..1][..0] == [];
    assert DigitsValue(s) == 10 * DigitValue(s[0]) + DigitValue(s[1]);
  }

  /** What the format writes splits back into the same three fields. */
  lemma RenderSplits(k: Format, d: Date)
    requires Renderable(k, d)
    ensures Split3(Render(k, d), Sep(k)) == Some(RenderFields(k, d))
    ensures var t := Render(k, d); t != [] && IsDigit(t[0]) && IsDigit(t[|t| - 1])
  {
    var (a, b, c) := RenderFields(k, d);
    var t := Render(k, d);
    assert IsDigit(a[0]) && IsDigit(c[|c| - 1]);
    assert t[0] == a[0] && t[|t| - 1] == c[|c| - 1];
    if k == DayAbbrShortYear || k == DayAbbrYear {
      MonthTitleReads(d.month);
    }
    Split3Parts(a, b, c, Sep(k));
  }

  lemma ShortYearOfPad(y: int)
    requires 1969 <= y <= 2068
    ensures ShortYear(Pad(y % 100, 2)) == Some(y)
  {
    TwoDigitsOfPad(y % 100);
  }

  lemma FieldsOfPad(d: Date)
    requires Valid(d)
    ensures DayField(Pad(d.day, 2)) == Some(d.day)
    ensures MonthField(Pad(d.month, 2)) == Some(d.month)
    ensures LongYear(Pad(d.year, 4)) == Some(d.year)
  {
    TwoDigitsOfPad(d.day);
    TwoDigitsOfPad(d.month);
  }

  /** The three fields a format writes read back as the date. */
  lemma FieldsRender(k: Format, d: Date)
    requires Renderable(k, d)
    ensures var (a, b, c) := RenderFields(k, d); FieldsDate(k, a, b, c) == Some(d)
  {
    FieldsOfPad(d);
    if k == DayAbbrShortYear || k == DayAbbrYear {
      MonthTitleReads(d.month);
    }
    if k == DayAbbrShortYear {
      ShortYearOfPad(d.year);
    }
  }

  /** Each format reads back the date it writes. */
  lemma ParseRender(k: Format, d: Date)
    requires Renderable(k, d)
    ensures ParseFormat(k, Render(k, d)) == Some(d)
  {
    RenderSplits(k, d);
    FieldsRender(k, d);
  }

  /** A text free of a format's separator never matches it. */
  lemma ParseWithoutSep(k: Format, t: string)
    requires Free(t, Sep(k))
    ensures ParseFormat(k, t).None?
  {
  }

  /** A different format with the same separator rejects the fields `k` writes. */
  lemma FieldsOnlyOwn(k: Format, f: Format, d: Date)
    requires Renderable(k, d) && f != k && Sep(f) == Sep(k)
    ensures var (a, b, c) := RenderFields(k, d); FieldsDate(f, a, b, c).None?
  {
    if k == DayAbbrShortYear || k == DayAbbrYear {
      MonthTitleReads(d.month);
    }
  }

  lemma FreeJoin(a: string, b: string, c: string, sep: char, x: char)
    requires Free(a, x) && Free(b, x) && Free(c, x) && sep != x
    ensures Free(a + [sep] + b + [sep] + c, x)
  {
    var t := a + [sep] + b + [sep] + c;
    forall i | 0 <= i < |t| ensures t[i] != x {
      if i < |a| {
        assert t[i] == a[i];
      } else if i == |a| || i == |a| + 1 + |b| {
        assert t[i] == sep;
      } else if i < |a| + 1 + |b| {
        assert t[i] == b[i - |a| - 1];
      } else {
        assert t[i] == c[i - |a| - |b| - 2];
      }
    }
  }

  /** What `k` writes is free of the other separator. */
  lemma RenderFree(k: Format, d: Date, x: char)
    requires Renderable(k, d) && x != Sep(k) && (x == '-' || x == '/')
    ensures Free(Render(k, d), x)
  {
    var (a, b, c) := RenderFields(k, d);
    if k == DayAbbrShortYear || k == DayAbbrYear {
      MonthTitleReads(d.month);
    }
    assert AllDigits(a) && AllDigits(c);
    FreeJoin(a, b, c, Sep(k), x);
  }

  /** No other format matches what `k` writes. */
  lemma RenderOnlyOwn(k: Format, f: Format, d: Date)
    requires Renderable(k, d) && f != k
    ensures ParseFormat(f, Render(k, d)).None?
  {
    if Sep(f) == Sep(k) {
      RenderSplits(k, d);
      FieldsOnlyOwn(k, f, d);
    } else {
      RenderFree(k, d, Sep(f));
      ParseWithoutSep(f, Render(k, d));
    }
  }

  /** The place of a format in the order `val_fecha` tries them. */
  function FormatIndex(k: Format): (i: nat)
    ensures i < |Formats| && Formats[i] == k
    ensures forall j :: 0 <= j < i ==> Formats[j] != k
  {
    match k
    case DayAbbrShortYear => 0
    case DaySlashMonth => 1
    case YearMonthDay => 2
    case DayDashMonth => 3
    case DayAbbrYear => 4
  }

  /** The formats tried before a date's own format all reject it. */
  lemma EarlierFormatsReject(k: Format, d: Date)
    requires Renderable(k, d)
    ensures forall j :: 0 <= j < FormatIndex(k) ==> ParseFormat(Formats[j], Render(k, d)).None?
  {
    forall j | 0 <= j < FormatIndex(k) ensures ParseFormat(Formats[j], Render(k, d)).None? {
      RenderOnlyOwn(k, Formats[j], d);
    }
  }

  /** A rendered date is not blank and has nothing to trim. */
  lemma RenderTrimmed(k: Format, d: Date)
    requires Renderable(k, d)
    ensures !IsBlank(Render(k, d)) && Strip(Render(k, d)) == Render(k, d)
  {
    RenderSplits(k, d);
    DigitEndsTrimmed(Render(k, d));
  }

  /** A text that starts and ends with a digit has nothing to trim. */
  lemma DigitEndsTrimmed(t: string)
    requires t != [] && IsDigit(t[0]) && IsDigit(t[|t| - 1])
    ensures !IsBlank(t) && Strip(t) == t
  {
    StripUntrimmed(t);
  }

  /** A text whose first matching format gives `d` is accepted as `d`, with no error. */
  lemma ValFechaFinds(text: string, campo: string, i: nat, d: Date)
    requires !IsBlank(text) && i < |Formats|
    requires ParseFormat(Formats[i], Strip(text)) == Some(d)
    requires forall j :: 0 <= j < i ==> ParseFormat(Formats[j], Strip(text)).None?
    ensures ValFecha(text, campo) == DateChecked(Some(d), None)
  {
    ValFechaMatchAt(text, campo, i);
  }

  /** `val_fecha` reads back every date written in any of its five formats. */
  lemma ValFechaRender(k: Format, d: Date, campo: string)
    requires Renderable(k, d)
    ensures ValFecha(Render(k, d), campo) == DateChecked(Some(d), None)
  {
    RenderTrimmed(k, d);
    ParseRender(k, d);
    EarlierFormatsReject(k, d);
    ValFechaFinds(Render(k, d), campo, FormatIndex(k), d);
  }
}
