/**
 * Calendar dates and the date parsing shared by the filter tools:
 * `parse_date` (json_tools/aw_filter.py, json_tools/aw_date_extractor.py)
 * tries four fixed `strptime` formats in order and falls back on
 * `dateutil`; `is_within_date_range` and `is_within_last_7_days`
 * (json_tools/aw_extractor.py) compare the date of a leniently parsed
 * timestamp with fixed bounds.
 */
module Dates {
  import opened Wrappers

  /** A `datetime.date`. */
  datatype Date = Date(year: int, month: int, day: int)

  /**
   * `dateutil.parser.parse(s).date()`, or None where it raises ValueError.
   * It is not part of this model, so every operation that uses it takes it
   * as a parameter.
   */
  type Lenient = string -> Option<Date>

  predicate LeapYear(y: int)
  {
    y % 4 == 0 && (y % 100 != 0 || y % 400 == 0)
  }

  function DaysInMonth(y: int, m: int): (r: int)
    requires 1 <= m <= 12
    ensures 28 <= r <= 31
  {
    if m == 2 then (if LeapYear(y) then 29 else 28)
    else if m == 4 || m == 6 || m == 9 || m == 11 then 30
    else 31
  }

  /** A date `datetime.date` accepts: years 1 to 9999 and a real day of the month. */
  predicate ValidDate(d: Date)
  {
    1 <= d.year <= 9999 && 1 <= d.month <= 12 && 1 <= d.day <= DaysInMonth(d.year, d.month)
  }

  /** Chronological order: by year, then month, then day. */
  predicate DateLe(a: Date, b: Date)
  {
    a.year < b.year || (a.year == b.year && (a.month < b.month || (a.month == b.month && a.day <= b.day)))
  }

  /** Chronological order is a total order. */
  lemma DateLeTotalOrder(a: Date, b: Date, c: Date)
    ensures DateLe(a, b) || DateLe(b, a)
    ensures DateLe(a, b) && DateLe(b, a) ==> a == b
    ensures DateLe(a, b) && DateLe(b, c) ==> DateLe(a, c)
  {
  }

  //
  // Stepping back through the calendar
  //

  /** The day before `d`: `d - timedelta(days=1)`. */
  function PrevDay(d: Date): (r: Date)
    requires ValidDate(d) && d != Date(1, 1, 1)
    ensures ValidDate(r) && DateLe(r, d) && r != d
  {
    if d.day > 1 then Date(d.year, d.month, d.day - 1)
    else if d.month > 1 then Date(d.year, d.month - 1, DaysInMonth(d.year, d.month - 1))
    else Date(d.year - 1, 12, 31)
  }

  /** No valid date lies strictly between the day before `d` and `d`. */
  lemma PrevDayAdjacent(d: Date, x: Date)
    requires ValidDate(d) && d != Date(1, 1, 1) && ValidDate(x)
    ensures DateLe(x, PrevDay(d)) || DateLe(d, x)
  {
  }

  /**
   * `d - timedelta(days=n)` for `n <= 7`; `d` must be at least 8 January of
   * year 1, below which the subtraction raises OverflowError.
   */
  function DaysBefore(d: Date, n: nat): (r: Date)
    requires ValidDate(d) && DateLe(Date(1, 1, 8), d) && n <= 7
    ensures ValidDate(r) && DateLe(r, d) && DateLe(Date(1, 1, 8 - n), r)
  {
    if n == 0 then d else PrevDay(DaysBefore(d, n - 1))
  }

  /** The dates from `n` days before `d` up to `d` are exactly the `n + 1` dates reached by stepping back. */
  lemma {:induction false} DaysBeforeWindow(d: Date, n: nat, x: Date)
    requires ValidDate(d) && DateLe(Date(1, 1, 8), d) && n <= 7 && ValidDate(x)
    ensures DateLe(DaysBefore(d, n), x) && DateLe(x, d) <==> exists k :: 0 <= k <= n && x == DaysBefore(d, k)
  {
    if n > 0 {
      DaysBeforeWindow(d, n - 1, x);
      var p := DaysBefore(d, n - 1);
      if DateLe(DaysBefore(d, n), x) && DateLe(x, d) && !DateLe(p, x) {
        PrevDayAdjacent(p, x);
        assert x == DaysBefore(d, n);
      }
      if exists k :: 0 <= k <= n && x == DaysBefore(d, k) {
        var k :| 0 <= k <= n && x == DaysBefore(d, k);
        if k < n {
          DaysBeforeMonotone(d, k, n - 1);
        }
      }
    }
  }

  /** Stepping back further gives an earlier date. */
  lemma {:induction false} DaysBeforeMonotone(d: Date, k: nat, n: nat)
    requires ValidDate(d) && DateLe(Date(1, 1, 8), d) && k <= n <= 7
    ensures DateLe(DaysBefore(d, n), DaysBefore(d, k))
  {
    if k < n {
      DaysBeforeMonotone(d, k, n - 1);
    }
  }

  //
  // strptime with the four fixed formats
  //

  /** The date fields a format can hold. */
  datatype Field = Year | Month | Day

  /** A format directive (`%Y`, `%m`, `%d`) or a literal character. */
  datatype Token = Lit(c: char) | Num(f: Field)

  const IsoFormat: seq<Token> := [Num(Year), Lit('-'), Num(Month), Lit('-'), Num(Day)]      // %Y-%m-%d
  const UsFormat: seq<Token> := [Num(Month), Lit('/'), Num(Day), Lit('/'), Num(Year)]       // %m/%d/%Y
  const EuFormat: seq<Token> := [Num(Day), Lit('/'), Num(Month), Lit('/'), Num(Year)]       // %d/%m/%Y
  const CompactFormat: seq<Token> := [Num(Year), Num(Month), Num(Day)]                      // %Y%m%d

  /** The formats `parse_date` tries, in order. */
  const Formats: seq<seq<Token>> := [IsoFormat, UsFormat, EuFormat, CompactFormat]

  /** One character position of a directive's regular expression. */
  datatype CharClass = Is(c: char) | Between(lo: char, hi: char)

  predicate InClass(c: char, k: CharClass)
  {
    match k
    case Is(x) => c == x
    case Between(lo, hi) => lo <= c <= hi
  }

  const AnyDigit: CharClass := Between('0', '9')

  /**
   * The alternatives of the regular expression `strptime` uses for each
   * directive, in the order the regular expression tries them:
   * `%Y` is `\d\d\d\d`, `%m` is `1[0-2]|0[1-9]|[1-9]` and `%d` is
   * `3[01]|[12]\d|0[1-9]|[1-9]| [1-9]`.
   */
  function Alternatives(f: Field): seq<seq<CharClass>>
  {
    match f
    case Year => [[AnyDigit, AnyDigit, AnyDigit, AnyDigit]]
    case Month => [[Is('1'), Between('0', '2')], [Is('0'), Between('1', '9')], [Between('1', '9')]]
    case Day => [[Is('3'), Between('0', '1')], [Between('1', '2'), AnyDigit], [Is('0'), Between('1', '9')], [Between('1', '9')], [Is(' '), Between('1', '9')]]
  }

  /** The alternative matches `s` at position `i`. */
  predicate Fits(s: string, i: nat, alt: seq<CharClass>)
  {
    i + |alt| <= |s| && forall k :: 0 <= k < |alt| ==> InClass(s[i + k], alt[k])
  }

  function DigitValue(c: char): nat
  {
    if '0' <= c <= '9' then (c as int - '0' as int) else 0
  }

  /** `int(t)` for the digits a directive matched (a leading blank counts for nothing). */
  function Value(t: string): nat
  {
    if t == [] then 0 else Value(t[..|t| - 1]) * 10 + DigitValue(t[|t| - 1])
  }

  /** A successful match: where it ends and the fields it bound. */
  datatype Match = Match(end: nat, year: int, month: int, day: int)

  function Bind(f: Field, v: int, year: int, month: int, day: int): (int, int, int)
  {
    match f
    case Year => (v, month, day)
    case Month => (year, v, day)
    case Day => (year, month, v)
  }

  /**
   * `re.match` of the format's regular expression at position `i`, with
   * backtracking into later alternatives when the rest of the pattern fails.
   */
  function MatchFrom(s: string, i: nat, pat: seq<Token>, year: int, month: int, day: int): (r: Option<Match>)
    requires i <= |s|
    ensures r.Some? ==> i <= r.value.end <= |s|
    decreases |pat|, 1, 0
  {
    if pat == [] then Some(Match(i, year, month, day))
    else
      match pat[0]
      case Lit(c) => if i < |s| && s[i] == c then MatchFrom(s, i + 1, pat[1..], year, month, day) else None
      case Num(f) => TryAlternatives(s, i, pat, f, Alternatives(f), year, month, day)
  }

  /** Tries the remaining alternatives of the directive `pat[0]`, in order. */
  function TryAlternatives(s: string, i: nat, pat: seq<Token>, f: Field, alts: seq<seq<CharClass>>, year: int, month: int, day: int): (r: Option<Match>)
    requires i <= |s| && pat != []
    ensures r.Some? ==> i <= r.value.end <= |s|
    decreases |pat|, 0, |alts|
  {
    if alts == [] then None
    else if Fits(s, i, alts[0]) then
      var j := i + |alts[0]|;
      var b := Bind(f, Value(s[i..j]), year, month, day);
      match MatchFrom(s, j, pat[1..], b.0, b.1, b.2)
      case Some(m) => Some(m)
      case None => TryAlternatives(s, i, pat, f, alts[1..], year, month, day)
    else TryAlternatives(s, i, pat, f, alts[1..], year, month, day)
  }

  /**
   * `datetime.strptime(s, fmt).date()`, None where it raises ValueError: no
   * match, unconverted data after the match, or a date out of range.
   */
  function Strptime(s: string, fmt: seq<Token>): (r: Option<Date>)
    ensures r.Some? ==> ValidDate(r.value)
  {
    match MatchFrom(s, 0, fmt, 1900, 1, 1)
    case None => None
    case Some(m) =>
      if m.end != |s| then None
      else if ValidDate(Date(m.year, m.month, m.day)) then Some(Date(m.year, m.month, m.day))
      else None
  }

  /** The first format in `fmts` that parses `s`. */
  function FirstFormat(s: string, fmts: seq<seq<Token>>): (r: Option<Date>)
    ensures r.Some? <==> exists i :: 0 <= i < |fmts| && Strptime(s, fmts[i]).Some?
    ensures r.Some? ==> exists i :: 0 <= i < |fmts| && Strptime(s, fmts[i]) == r
                          && forall j :: 0 <= j < i ==> Strptime(s, fmts[j]).None?
  {
    if fmts == [] then None
    else if Strptime(s, fmts[0]).Some? then Strptime(s, fmts[0])
    else
      var r := FirstFormat(s, fmts[1..]);
      assert forall i :: 1 <= i < |fmts| ==> fmts[i] == fmts[1..][i - 1];
      r
  }

  /**
   * `parse_date(s)`: None for None (strptime raises TypeError), the first of
   * the four formats that parses, else the lenient parse.
   */
  function ParseDate(s: Option<string>, lenient: Lenient): (r: Option<Date>)
    ensures s.None? ==> r.None?
    ensures s.Some? && FirstFormat(s.value, Formats).Some? ==> r == FirstFormat(s.value, Formats)
    ensures s.Some? && FirstFormat(s.value, Formats).None? ==> r == lenient(s.value)
    ensures s.Some? && r.Some? && r != lenient(s.value) ==> ValidDate(r.value)
  {
    match s
    case None => None
    case Some(str) =>
      match FirstFormat(str, Formats)
      case Some(d) => Some(d)
      case None => lenient(str)
  }

  //
  // How the formats read the strings they are meant for
  //

  /** An alternative later than every non-fitting one decides the directive. */
  lemma {:induction false} FirstFitting(s: string, i: nat, pat: seq<Token>, f: Field, alts: seq<seq<CharClass>>, k: nat,
                                        year: int, month: int, day: int, m: Match)
    requires i <= |s| && pat != [] && k < |alts|
    requires forall j :: 0 <= j < k ==> !Fits(s, i, alts[j])
    requires Fits(s, i, alts[k])
    requires var b := Bind(f, Value(s[i..i + |alts[k]|]), year, month, day);
      MatchFrom(s, i + |alts[k]|, pat[1..], b.0, b.1, b.2) == Some(m)
    ensures TryAlternatives(s, i, pat, f, alts, year, month, day) == Some(m)
    decreases k
  {
    if k > 0 {
      assert forall j :: 0 <= j < k - 1 ==> alts[1..][j] == alts[j + 1];
      FirstFitting(s, i, pat, f, alts[1..], k - 1, year, month, day, m);
    }
  }

  /** The decimal digit `n`. */
  function DigitChar(n: nat): (c: char)
    requires n < 10
    ensures '0' <= c <= '9' && DigitValue(c) == n
  {
    ('0' as int + n) as char
  }

  /** `n` in two digits, zero-padded (`%02d`). */
  function Digits2(n: nat): (r: string)
    requires n < 100
    ensures |r| == 2 && Value(r) == n
    ensures r[0] == DigitChar(n / 10) && r[1] == DigitChar(n % 10)
  {
    var r := [DigitChar(n / 10), DigitChar(n % 10)];
    assert r[..1] == [r[0]] && r[..1][..0] == [];
    assert Value(r[..1]) == n / 10;
    r
  }

  /** `n` in four digits, zero-padded (`%04d`). */
  function Digits4(n: nat): (r: string)
    requires n < 10000
    ensures |r| == 4 && Value(r) == n
    ensures forall k :: 0 <= k < 4 ==> '0' <= r[k] <= '9'
  {
    var r := [DigitChar(n / 1000), DigitChar(n / 100 % 10), DigitChar(n / 10 % 10), DigitChar(n % 10)];
    assert r[..1] == [r[0]] && r[..1][..0] == [];
    assert r[..2][..1] == r[..1] && r[..3][..2] == r[..2];
    assert Value(r[..1]) == n / 1000;
    assert Value(r[..2]) == n / 100;
    assert Value(r[..3]) == n / 10;
    r
  }

  /** `date.isoformat()`: `YYYY-MM-DD`. */
  function IsoDate(d: Date): (r: string)
    requires ValidDate(d)
    ensures |r| == 10
  {
    Digits4(d.year) + "-" + Digits2(d.month) + "-" + Digits2(d.day)
  }

  /** The month two-digit field of an ISO date is read by the alternative `1[0-2]` or `0[1-9]`. */
  lemma MonthField(s: string, i: nat, pat: seq<Token>, month: int, year: int, day: int, m: Match)
    requires 1 <= month <= 12 && i + 2 <= |s| && s[i..i + 2] == Digits2(month)
    requires pat != [] && pat[0] == Num(Month)
    requires MatchFrom(s, i + 2, pat[1..], year, month, day) == Some(m)
    ensures MatchFrom(s, i, pat, year, 1, day) == Some(m)
  {
    var alts := Alternatives(Month);
    assert s[i] == s[i..i + 2][0] && s[i + 1] == s[i..i + 2][1];
    if month >= 10 {
      assert Fits(s, i, alts[0]) by { assert s[i + 0] == s[i] && s[i + 1] == s[i + 1]; }
      FirstFitting(s, i, pat, Month, alts, 0, year, 1, day, m);
    } else {
      assert !InClass(s[i + 0], alts[0][0]);
      assert Fits(s, i, alts[1]);
      FirstFitting(s, i, pat, Month, alts, 1, year, 1, day, m);
    }
  }

  /** The day two-digit field of an ISO date is read by `3[01]`, `[12]\d` or `0[1-9]`. */
  lemma DayField(s: string, i: nat, pat: seq<Token>, day: int, year: int, month: int, m: Match)
    requires 1 <= day <= 31 && i + 2 <= |s| && s[i..i + 2] == Digits2(day)
    requires pat != [] && pat[0] == Num(Day)
    requires MatchFrom(s, i + 2, pat[1..], year, month, day) == Some(m)
    ensures MatchFrom(s, i, pat, year, month, 1) == Some(m)
  {
    var alts := Alternatives(Day);
    assert s[i] == s[i..i + 2][0] && s[i + 1] == s[i..i + 2][1];
    if day >= 30 {
      assert Fits(s, i, alts[0]);
      FirstFitting(s, i, pat, Day, alts, 0, year, month, 1, m);
    } else if day >= 10 {
      assert !InClass(s[i + 0], alts[0][0]);
      assert Fits(s, i, alts[1]);
      FirstFitting(s, i, pat, Day, alts, 1, year, month, 1, m);
    } else {
      assert !InClass(s[i + 0], alts[0][0]) && !InClass(s[i + 0], alts[1][0]);
      assert Fits(s, i, alts[2]);
      FirstFitting(s, i, pat, Day, alts, 2, year, month, 1, m);
    }
  }

  /** The year field is any four digits. */
  lemma YearField(s: string, i: nat, pat: seq<Token>, year: int, month: int, day: int, m: Match)
    requires 0 <= year < 10000 && i + 4 <= |s| && s[i..i + 4] == Digits4(year)
    requires pat != [] && pat[0] == Num(Year)
    requires MatchFrom(s, i + 4, pat[1..], year, month, day) == Some(m)
    ensures MatchFrom(s, i, pat, 1900, month, day) == Some(m)
  {
    var alts := Alternatives(Year);
    var t := s[i..i + 4];
    assert s[i + 0] == t[0] && s[i + 1] == t[1] && s[i + 2] == t[2] && s[i + 3] == t[3];
    assert Fits(s, i, alts[0]);
    FirstFitting(s, i, pat, Year, alts, 0, 1900, month, day, m);
  }

  /** `parse_date` reads back every date `isoformat` writes. */
  lemma ParseIsoDate(d: Date, lenient: Lenient)
    requires ValidDate(d)
    ensures Strptime(IsoDate(d), IsoFormat) == Some(d)
    ensures ParseDate(Some(IsoDate(d)), lenient) == Some(d)
  {
    var s := IsoDate(d);
    var m := Match(10, d.year, d.month, d.day);
    assert s[0..4] == Digits4(d.year);
    assert s[4] == '-' && s[7] == '-';
    assert s[5..7] == Digits2(d.month);
    assert s[8..10] == Digits2(d.day);
    assert IsoFormat[1..][1..][1..][1..][1..] == [];
    assert MatchFrom(s, 10, [], d.year, d.month, d.day) == Some(m);
    DayField(s, 8, IsoFormat[1..][1..][1..][1..], d.day, d.year, d.month, m);
    assert MatchFrom(s, 7, IsoFormat[1..][1..][1..], d.year, d.month, 1) == Some(m);
    MonthField(s, 5, IsoFormat[1..][1..], d.month, d.year, 1, m);
    assert MatchFrom(s, 4, IsoFormat[1..], d.year, 1, 1) == Some(m);
    YearField(s, 0, IsoFormat, d.year, 1, 1, m);
    assert Formats[0] == IsoFormat;
  }

  /** `"%m/%d/%Y"` rendering of a date. */
  function UsDate(d: Date): (r: string)
    requires ValidDate(d)
    ensures |r| == 10
  {
    Digits2(d.month) + "/" + Digits2(d.day) + "/" + Digits4(d.year)
  }

  /** `"%d/%m/%Y"` rendering of a date. */
  function EuDate(d: Date): (r: string)
    requires ValidDate(d)
    ensures |r| == 10
  {
    Digits2(d.day) + "/" + Digits2(d.month) + "/" + Digits4(d.year)
  }

  /** `"%Y%m%d"` rendering of a date. */
  function CompactDate(d: Date): (r: string)
    requires ValidDate(d)
    ensures |r| == 8
  {
    Digits4(d.year) + Digits2(d.month) + Digits2(d.day)
  }

  /** However the directive `pat[0]` is read, the literal that follows it is not there. */
  lemma {:induction false} LiteralMissing(s: string, i: nat, pat: seq<Token>, f: Field, alts: seq<seq<CharClass>>, c: char,
                                          year: int, month: int, day: int)
    requires i <= |s| && |pat| >= 2 && pat[1] == Lit(c)
    requires forall j :: 0 <= j < |alts| && Fits(s, i, alts[j]) ==> i + |alts[j]| < |s| && s[i + |alts[j]|] != c
    ensures TryAlternatives(s, i, pat, f, alts, year, month, day) == None
    decreases |alts|
  {
    if alts != [] {
      assert forall j :: 0 <= j < |alts| - 1 ==> alts[1..][j] == alts[j + 1];
      LiteralMissing(s, i, pat, f, alts[1..], c, year, month, day);
      assert pat[1..][0] == Lit(c);
    }
  }

  /** `%Y-%m-%d` needs a dash after the four year digits. */
  lemma IsoRejects(s: string)
    requires 4 < |s| && s[4] != '-'
    ensures Strptime(s, IsoFormat) == None
  {
    LiteralMissing(s, 0, IsoFormat, Year, Alternatives(Year), '-', 1900, 1, 1);
  }

  /** `%m/%d/%Y` needs a slash after the one or two month digits. */
  lemma UsRejects(s: string)
    requires 2 < |s| && s[1] != '/' && s[2] != '/'
    ensures Strptime(s, UsFormat) == None
  {
    var alts := Alternatives(Month);
    assert forall j :: 0 <= j < |alts| ==> 1 <= |alts[j]| <= 2;
    LiteralMissing(s, 0, UsFormat, Month, alts, '/', 1900, 1, 1);
  }

  /** `%d/%m/%Y` needs a slash after the one or two day characters. */
  lemma EuRejects(s: string)
    requires 2 < |s| && s[1] != '/' && s[2] != '/'
    ensures Strptime(s, EuFormat) == None
  {
    var alts := Alternatives(Day);
    assert forall j :: 0 <= j < |alts| ==> 1 <= |alts[j]| <= 2;
    LiteralMissing(s, 0, EuFormat, Day, alts, '/', 1900, 1, 1);
  }

  /** `%m/%d/%Y` dates are read back as written, the ISO format failing on them. */
  lemma ParseUsDate(d: Date, lenient: Lenient)
    requires ValidDate(d)
    ensures Strptime(UsDate(d), UsFormat) == Some(d)
    ensures ParseDate(Some(UsDate(d)), lenient) == Some(d)
  {
    var s := UsDate(d);
    var m := Match(10, d.year, d.month, d.day);
    assert s[0..2] == Digits2(d.month);
    assert s[2] == '/' && s[5] == '/';
    assert s[3..5] == Digits2(d.day);
    assert s[6..10] == Digits4(d.year);
    assert UsFormat[1..][1..][1..][1..][1..] == [];
    assert MatchFrom(s, 10, [], d.year, d.month, d.day) == Some(m);
    YearField(s, 6, UsFormat[1..][1..][1..][1..], d.year, d.month, d.day, m);
    assert MatchFrom(s, 5, UsFormat[1..][1..][1..], 1900, d.month, d.day) == Some(m);
    DayField(s, 3, UsFormat[1..][1..], d.day, 1900, d.month, m);
    assert MatchFrom(s, 2, UsFormat[1..], 1900, d.month, 1) == Some(m);
    MonthField(s, 0, UsFormat, d.month, 1900, 1, m);
    IsoRejects(s);
    assert Formats[0] == IsoFormat && Formats[1] == UsFormat && Formats[1..][0] == UsFormat;
  }

  /** A day above 12 cannot be read as a month, so `%m/%d/%Y` fails on a `%d/%m/%Y` date. */
  lemma EuDateNotUs(d: Date)
    requires ValidDate(d) && d.day > 12
    ensures Strptime(EuDate(d), UsFormat) == None
  {
    var s := EuDate(d);
    var alts := Alternatives(Month);
    assert s[0] == Digits2(d.day)[0] && s[1] == Digits2(d.day)[1] && s[2] == '/';
    assert !Fits(s, 0, alts[0]) by {
      if d.day < 20 {
        assert !InClass(s[0 + 1], alts[0][1]);
      } else {
        assert !InClass(s[0 + 0], alts[0][0]);
      }
    }
    assert !InClass(s[0 + 0], alts[1][0]);
    LiteralMissing(s, 0, UsFormat, Month, alts, '/', 1900, 1, 1);
  }

  /** `%d/%m/%Y` reads its own rendering back. */
  lemma EuDateRead(d: Date)
    requires ValidDate(d)
    ensures Strptime(EuDate(d), EuFormat) == Some(d)
  {
    var s := EuDate(d);
    var m := Match(10, d.year, d.month, d.day);
    assert s[0..2] == Digits2(d.day);
    assert s[2] == '/' && s[5] == '/';
    assert s[3..5] == Digits2(d.month);
    assert s[6..10] == Digits4(d.year);
    assert EuFormat[1..][1..][1..][1..][1..] == [];
    assert MatchFrom(s, 10, [], d.year, d.month, d.day) == Some(m);
    YearField(s, 6, EuFormat[1..][1..][1..][1..], d.year, d.month, d.day, m);
    assert MatchFrom(s, 5, EuFormat[1..][1..][1..], 1900, d.month, d.day) == Some(m);
    MonthField(s, 3, EuFormat[1..][1..], d.month, 1900, d.day, m);
    assert MatchFrom(s, 2, EuFormat[1..], 1900, 1, d.day) == Some(m);
    DayField(s, 0, EuFormat, d.day, 1900, 1, m);
  }

  /**
   * `%d/%m/%Y` dates are read month first whenever the day could be a month
   * (`%m/%d/%Y` is tried first), and as written otherwise.
   */
  lemma ParseEuDate(d: Date, lenient: Lenient)
    requires ValidDate(d)
    ensures ParseDate(Some(EuDate(d)), lenient) == Some(if d.day <= 12 then Date(d.year, d.day, d.month) else d)
  {
    var s := EuDate(d);
    if d.day <= 12 {
      var w := Date(d.year, d.day, d.month);
      assert UsDate(w) == s;
      ParseUsDate(w, lenient);
    } else {
      EuDateNotUs(d);
      EuDateRead(d);
      IsoRejects(s);
      assert Formats[0] == IsoFormat && Formats[1..][0] == UsFormat && Formats[1..][1..][0] == EuFormat;
    }
  }

  /** `%Y%m%d` dates are read back as written, the three formats with separators failing on them. */
  lemma ParseCompactDate(d: Date, lenient: Lenient)
    requires ValidDate(d)
    ensures ParseDate(Some(CompactDate(d)), lenient) == Some(d)
  {
    var s := CompactDate(d);
    var m := Match(8, d.year, d.month, d.day);
    assert s[0..4] == Digits4(d.year);
    assert s[4..6] == Digits2(d.month);
    assert s[6..8] == Digits2(d.day);
    assert s[1] == s[0..4][1] && s[2] == s[0..4][2] && s[4] == s[4..6][0];
    IsoRejects(s);
    UsRejects(s);
    EuRejects(s);
    assert CompactFormat[1..][1..][1..] == [];
    assert MatchFrom(s, 8, [], d.year, d.month, d.day) == Some(m);
    DayField(s, 6, CompactFormat[1..][1..], d.day, d.year, d.month, m);
    MonthField(s, 4, CompactFormat[1..], d.month, d.year, 1, m);
    YearField(s, 0, CompactFormat, d.year, 1, 1, m);
    assert Formats[1..][1..][1..][0] == CompactFormat;
  }

  /** "2025-06-01" is 1 June 2025. */
  lemma ParseIsoExample(lenient: Lenient)
    ensures ParseDate(Some("2025-06-01"), lenient) == Some(Date(2025, 6, 1))
  {
    ParseIsoDate(Date(2025, 6, 1), lenient);
    assert IsoDate(Date(2025, 6, 1)) == "2025-06-01";
  }

  /** "01/06/2025" is read month first: 6 January 2025. */
  lemma ParseUsExample(lenient: Lenient)
    ensures ParseDate(Some("01/06/2025"), lenient) == Some(Date(2025, 1, 6))
  {
    ParseUsDate(Date(2025, 1, 6), lenient);
    assert UsDate(Date(2025, 1, 6)) == "01/06/2025";
  }

  /** "13/06/2025" has no month 13, so it is read day first: 13 June 2025. */
  lemma ParseEuExample(lenient: Lenient)
    ensures ParseDate(Some("13/06/2025"), lenient) == Some(Date(2025, 6, 13))
  {
    assert Digits2(13) == "13" && Digits2(6) == "06" && Digits4(2025) == "2025";
    assert EuDate(Date(2025, 6, 13)) == "13/06/2025";
    ParseEuDate(Date(2025, 6, 13), lenient);
  }

  /** "20250601" is 1 June 2025. */
  lemma ParseCompactExample(lenient: Lenient)
    ensures ParseDate(Some("20250601"), lenient) == Some(Date(2025, 6, 1))
  {
    assert Digits2(1) == "01" && Digits2(6) == "06" && Digits4(2025) == "2025";
    assert CompactDate(Date(2025, 6, 1)) == "20250601";
    ParseCompactDate(Date(2025, 6, 1), lenient);
  }

  /** No format reads "", which is then left to the lenient parse. */
  lemma ParseDateEmpty(lenient: Lenient)
    ensures ParseDate(Some(""), lenient) == lenient("")
  {
    var alts := Alternatives(Month);
    assert forall j :: 0 <= j < |alts| ==> 1 <= |alts[j]|;
    LiteralMissing("", 0, UsFormat, Month, alts, '/', 1900, 1, 1);
    alts := Alternatives(Day);
    assert forall j :: 0 <= j < |alts| ==> 1 <= |alts[j]|;
    LiteralMissing("", 0, EuFormat, Day, alts, '/', 1900, 1, 1);
    LiteralMissing("", 0, IsoFormat, Year, Alternatives(Year), '-', 1900, 1, 1);
    assert !Fits("", 0, Alternatives(Year)[0]) && Alternatives(Year)[1..] == [];
    assert MatchFrom("", 0, CompactFormat, 1900, 1, 1) == None;
    assert forall i :: 0 <= i < |Formats| ==> Strptime("", Formats[i]) == None;
  }

  //
  // Date windows
  //

  /**
   * `is_within_date_range`: the leniently parsed date of the timestamp lies
   * in `[start, end]`, both ends included; false where the parse fails.
   */
  predicate IsWithinDateRange(ts: string, start: Date, end: Date, lenient: Lenient)
  {
    match lenient(ts)
    case None => false
    case Some(a) => DateLe(start, a) && DateLe(a, end)
  }

  /** Widening the range keeps every timestamp the narrower one accepted. */
  lemma WidenRange(ts: string, start: Date, end: Date, start': Date, end': Date, lenient: Lenient)
    requires DateLe(start', start) && DateLe(end, end')
    ensures IsWithinDateRange(ts, start, end, lenient) ==> IsWithinDateRange(ts, start', end', lenient)
  {
  }

  function LaterDate(a: Date, b: Date): Date
  {
    if DateLe(a, b) then b else a
  }

  function EarlierDate(a: Date, b: Date): Date
  {
    if DateLe(a, b) then a else b
  }

  /** Being in two ranges is being in their intersection. */
  lemma IntersectRanges(ts: string, s1: Date, e1: Date, s2: Date, e2: Date, lenient: Lenient)
    ensures IsWithinDateRange(ts, s1, e1, lenient) && IsWithinDateRange(ts, s2, e2, lenient)
        <==> IsWithinDateRange(ts, LaterDate(s1, s2), EarlierDate(e1, e2), lenient)
  {
  }

  /**
   * `is_within_last_7_days`: the leniently parsed date lies between
   * `today - 7 days` and `today`, both included; false where the parse
   * fails. The subtraction raises OverflowError (not caught) before
   * 8 January of year 1.
   */
  function IsWithinLast7Days(ts: string, today: Date, lenient: Lenient): (r: bool)
    requires ValidDate(today) && DateLe(Date(1, 1, 8), today)
    ensures r == IsWithinDateRange(ts, DaysBefore(today, 7), today, lenient)
  {
    var sevenDaysAgo := DaysBefore(today, 7);
    match lenient(ts)
    case None => false
    case Some(a) => DateLe(sevenDaysAgo, a) && DateLe(a, today)
  }

  /** The window holds exactly the eight dates from `today - 7 days` to `today`. */
  lemma Last7DaysWindow(ts: string, today: Date, lenient: Lenient)
    requires ValidDate(today) && DateLe(Date(1, 1, 8), today)
    requires lenient(ts).Some? && ValidDate(lenient(ts).value)
    ensures IsWithinLast7Days(ts, today, lenient) <==> exists k :: 0 <= k <= 7 && lenient(ts).value == DaysBefore(today, k)
  {
    DaysBeforeWindow(today, 7, lenient(ts).value);
  }

  /** Seven days before 7 June 2025 is 31 May 2025. */
  lemma SevenDaysBeforeExample()
    ensures DaysBefore(Date(2025, 6, 7), 7) == Date(2025, 5, 31)
  {
    var d := Date(2025, 6, 7);
    assert DaysBefore(d, 3) == Date(2025, 6, 4);
    assert DaysBefore(d, 6) == Date(2025, 6, 1);
  }
}
