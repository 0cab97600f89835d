/** `parse_date` and `parse_date_str`: datetime.strptime(s, "%Y-%m-%d")
    followed by strftime("%Y%m%d") read back with int(), or by
    strftime("%Y-%m-%d"). strptime matches the string against the pattern
    "(\d\d\d\d)-(1[0-2]|0[1-9]|[1-9])-(3[01]|[12]\d|0[1-9]|[1-9]| [1-9])",
    trying the alternatives in that order, refuses leftover characters, and
    then refuses a day the proleptic Gregorian calendar does not have (and
    the year 0). */
module Dates {
  import opened PyValues
  import opened Decimal

  datatype Date = Date(year: nat, month: nat, day: nat)

  predicate IsLeap(y: nat) {
    y % 4 == 0 && (y % 100 != 0 || y % 400 == 0)
  }

  function DaysInMonth(y: nat, m: nat): nat
    requires 1 <= m <= 12
  {
    if m == 2 then (if IsLeap(y) then 29 else 28)
    else if m == 4 || m == 6 || m == 9 || m == 11 then 30
    else 31
  }

  /** A date that datetime accepts and that a four-digit %Y can spell. */
  predicate ValidDate(d: Date) {
    1 <= d.year <= 9999 && 1 <= d.month <= 12 && 1 <= d.day <= DaysInMonth(d.year, d.month)
  }

  predicate DigitIn(s: string, i: nat, lo: char, hi: char) {
    i < |s| && lo <= s[i] <= hi
  }

  /** The alternatives of the month group that match at i, in the order the
      regular expression tries them, each as (month, end). */
  function MonthCandidates(s: string, i: nat): seq<(nat, nat)>
  {
    (if DigitIn(s, i, '1', '1') && DigitIn(s, i + 1, '0', '2') then [(10 + DigitValue(s[i + 1]), i + 2)] else [])
    + (if DigitIn(s, i, '0', '0') && DigitIn(s, i + 1, '1', '9') then [(DigitValue(s[i + 1]), i + 2)] else [])
    + (if DigitIn(s, i, '1', '9') then [(DigitValue(s[i]), i + 1)] else [])
  }

  /** The day group: nothing follows it in the pattern, so the first
      alternative that matches at i is the one kept, as (day, end). */
  function DayAt(s: string, i: nat): Option<(nat, nat)>
  {
    if DigitIn(s, i, '3', '3') && DigitIn(s, i + 1, '0', '1') then Some((30 + DigitValue(s[i + 1]), i + 2))
    else if DigitIn(s, i, '1', '2') && DigitIn(s, i + 1, '0', '9') then
      Some((10 * DigitValue(s[i]) + DigitValue(s[i + 1]), i + 2))
    else if DigitIn(s, i, '0', '0') && DigitIn(s, i + 1, '1', '9') then Some((DigitValue(s[i + 1]), i + 2))
    else if DigitIn(s, i, '1', '9') then Some((DigitValue(s[i]), i + 1))
    else if i < |s| && s[i] == ' ' && DigitIn(s, i + 1, '1', '9') then Some((DigitValue(s[i + 1]), i + 2))
    else None
  }

  /** Backtracking over the month alternatives: the first one followed by
      '-' and a day, as (month, day, end of the match). */
  function MonthDay(s: string, cands: seq<(nat, nat)>): Option<(nat, nat, nat)>
  {
    if |cands| == 0 then None
    else
      var (m, j) := cands[0];
      if j < |s| && s[j] == '-' && DayAt(s, j + 1).Some? then
        Some((m, DayAt(s, j + 1).value.0, DayAt(s, j + 1).value.1))
      else MonthDay(s, cands[1..])
  }

  /** datetime.strptime(s, "%Y-%m-%d") on a str. */
  function ParseYmd(s: string): (r: Result<Date>)
    ensures r.Ok? ==> ValidDate(r.value)
    ensures r.Err? ==> r.error == ValueError
  {
    if |s| < 5 || !AllDigits(s[..4]) || s[4] != '-' then Err(ValueError)
    else
      match MonthDay(s, MonthCandidates(s, 5))
      case None => Err(ValueError)
      case Some((m, d, end)) =>
        MonthInRange(s);
        var date := Date(DigitsValue(s[..4]), m, d);
        if end != |s| then Err(ValueError)   // unconverted data remains
        else if date.year == 0 || date.day == 0 || date.day > DaysInMonth(date.year, m) then Err(ValueError)
        else Ok(date)
  }

  /** Every month the pattern can match is between 1 and 12. */
  lemma MonthInRange(s: string)
    requires |s| >= 5
    ensures MonthDay(s, MonthCandidates(s, 5)).Some? ==> 1 <= MonthDay(s, MonthCandidates(s, 5)).value.0 <= 12
    ensures AllDigits(s[..4]) ==> DigitsValue(s[..4]) <= 9999
  {
    var c := MonthCandidates(s, 5);
    assert forall k :: 0 <= k < |c| ==> 1 <= c[k].0 <= 12;
    MonthDayFrom(s, c);
    if AllDigits(s[..4]) {
      FourDigits(s[..4]);
    }
  }

  lemma {:induction false} MonthDayFrom(s: string, cands: seq<(nat, nat)>)
    ensures MonthDay(s, cands).Some? ==> exists k :: 0 <= k < |cands| && cands[k].0 == MonthDay(s, cands).value.0
  {
    if |cands| > 0 {
      MonthDayFrom(s, cands[1..]);
      if MonthDay(s, cands).Some? && MonthDay(s, cands) == MonthDay(s, cands[1..]) {
        var k :| 0 <= k < |cands[1..]| && cands[1..][k].0 == MonthDay(s, cands).value.0;
        assert cands[k + 1].0 == MonthDay(s, cands).value.0;
      }
    }
  }

  /** Two-digit zero-padded rendering, as %m and %d print. */
  function Pad2(n: nat): (r: string)
    requires n < 100
    ensures |r| == 2 && AllDigits(r)
  {
    [DigitChar(n / 10), DigitChar(n % 10)]
  }

  /** Four-digit zero-padded rendering, as %Y prints. */
  function Pad4(n: nat): (r: string)
    requires n < 10000
    ensures |r| == 4 && AllDigits(r)
  {
    [DigitChar(n / 1000), DigitChar(n / 100 % 10), DigitChar(n / 10 % 10), DigitChar(n % 10)]
  }

  /** strftime("%Y-%m-%d"). */
  function Canonical(d: Date): string
    requires ValidDate(d)
  {
    Pad4(d.year) + "-" + Pad2(d.month) + "-" + Pad2(d.day)
  }

  /** strftime("%Y%m%d"). */
  function Compact(d: Date): string
    requires ValidDate(d)
  {
    Pad4(d.year) + Pad2(d.month) + Pad2(d.day)
  }

  lemma Pad2Value(n: nat)
    requires n < 100
    ensures DigitsValue(Pad2(n)) == n
  {
    TwoDigits(Pad2(n));
  }

  lemma Pad4Value(n: nat)
    requires n < 10000
    ensures DigitsValue(Pad4(n)) == n
  {
    FourDigits(Pad4(n));
    FourPlaces(n);
  }

  /** The four places %Y prints add back up to the year. */
  lemma FourPlaces(n: nat)
    requires n < 10000
    ensures n / 1000 * 1000 + n / 100 % 10 * 100 + n / 10 % 10 * 10 + n % 10 == n
  {
    var t := n / 10;
    var u := t / 10;
    var v := u / 10;
    assert n == 10 * t + n % 10;
    assert t == 10 * u + t % 10;
    assert u == 10 * v + u % 10;
    assert n / 100 == u;
    assert n / 1000 == v;
  }

  /** parse_date: int(strftime("%Y%m%d")) of the parsed date, which is the
      number year * 10000 + month * 100 + day; a non-str raises TypeError,
      a str that strptime refuses raises ValueError. */
  function ParseDate(v: Json): (r: Result<int>)
    ensures !v.JStr? ==> r == Err(TypeError)
    ensures v.JStr? ==> (r.Ok? <==> ParseYmd(v.s).Ok?)
    ensures v.JStr? && ParseYmd(v.s).Err? ==> r == Err(ValueError)
    ensures r.Ok? ==>
      var d := ParseYmd(v.s).value;
      && r.value == d.year * 10000 + d.month * 100 + d.day
      && r.value / 10000 == d.year && r.value / 100 % 100 == d.month && r.value % 100 == d.day
  {
    if !v.JStr? then Err(TypeError)
    else
      match ParseYmd(v.s)
      case Err(e) => Err(e)
      case Ok(d) =>
        CompactValue(d);
        Ok(DigitsValue(Compact(d)))
  }

  lemma CompactValue(d: Date)
    requires ValidDate(d)
    ensures DigitsValue(Compact(d)) == d.year * 10000 + d.month * 100 + d.day
    ensures var n := d.year * 10000 + d.month * 100 + d.day;
      n / 10000 == d.year && n / 100 % 100 == d.month && n % 100 == d.day
  {
    CompactDigits(d);
    CompactFields(d.year, d.month, d.day);
  }

  /** The number year * 10000 + month * 100 + day keeps the three fields apart. */
  lemma CompactFields(y: nat, m: nat, d: nat)
    requires m < 100 && d < 100
    ensures var n := y * 10000 + m * 100 + d;
      n / 10000 == y && n / 100 % 100 == m && n % 100 == d
  {
    var n := y * 10000 + m * 100 + d;
    assert n == (y * 100 + m) * 100 + d;
    assert n / 100 == y * 100 + m;
  }

  lemma CompactDigits(d: Date)
    requires ValidDate(d)
    ensures DigitsValue(Compact(d)) == d.year * 10000 + d.month * 100 + d.day
  {
    var y, m, dd := Pad4(d.year), Pad2(d.month), Pad2(d.day);
    Pad4Value(d.year);
    AppendPad2(y, d.month);
    AppendPad2(y + m, d.day);
    assert Compact(d) == (y + m) + dd;
  }

  /** Two more digits k after s multiply its value by 100 and add k. */
  lemma AppendPad2(s: string, k: nat)
    requires AllDigits(s) && k < 100
    ensures AllDigits(s + Pad2(k))
    ensures DigitsValue(s + Pad2(k)) == DigitsValue(s) * 100 + k
  {
    DigitsValueConcat(s, Pad2(k));
    Pad2Value(k);
    assert Pow10(|Pad2(k)|) == 100;
  }

  /** parse_date_str: strftime("%Y-%m-%d") of the parsed date. */
  function ParseDateStr(v: Json): (r: Result<string>)
    ensures !v.JStr? ==> r == Err(TypeError)
    ensures v.JStr? ==> (r.Ok? <==> ParseYmd(v.s).Ok?)
  {
    if !v.JStr? then Err(TypeError)
    else
      match ParseYmd(v.s)
      case Err(e) => Err(e)
      case Ok(d) => Ok(Canonical(d))
  }

  /** strptime reads the zero-padded form back into the same date. */
  lemma CanonicalRoundTrip(d: Date)
    requires ValidDate(d)
    ensures ParseYmd(Canonical(d)) == Ok(d)
  {
    var s := Canonical(d);
    CanonicalShape(d);
    Pad4Value(d.year);
    var c := MonthCandidates(s, 5);
    assert c[0] == (d.month, 7);
    assert DayAt(s, 8) == Some((d.day, 10));
  }

  /** Where the fields sit in the zero-padded form. */
  lemma CanonicalShape(d: Date)
    requires ValidDate(d)
    ensures var s := Canonical(d);
      && |s| == 10 && s[..4] == Pad4(d.year) && s[4] == '-' && s[7] == '-'
      && s[5] == DigitChar(d.month / 10) && s[6] == DigitChar(d.month % 10)
      && s[8] == DigitChar(d.day / 10) && s[9] == DigitChar(d.day % 10)
  {
  }

  /** parse_date_str is idempotent: its output parses to itself. */
  lemma ParseDateStrIdempotent(v: Json)
    requires ParseDateStr(v).Ok?
    ensures ParseDateStr(JStr(ParseDateStr(v).value)) == ParseDateStr(v)
  {
    CanonicalRoundTrip(ParseYmd(v.s).value);
  }

  /** parse_date_str and parse_date agree: reading the string form gives the
      same number. */
  lemma ParseDateAgrees(v: Json)
    requires ParseDateStr(v).Ok?
    ensures ParseDate(JStr(ParseDateStr(v).value)) == ParseDate(v)
  {
    CanonicalRoundTrip(ParseYmd(v.s).value);
  }

  /** The accepted strings are exactly the spellings of valid dates: every
      valid date is accepted in its padded form. */
  lemma ValidDatesAccepted(d: Date)
    requires ValidDate(d)
    ensures ParseDate(JStr(Canonical(d))) == Ok(d.year * 10000 + d.month * 100 + d.day)
  {
    CanonicalRoundTrip(d);
  }

  /** strptime's leniency: one-digit month and day, and a blank before a
      one-digit day. */
  lemma LenientForms()
    ensures ParseYmd("2024-1-5") == Ok(Date(2024, 1, 5))
    ensures ParseYmd("2024-10- 7") == Ok(Date(2024, 10, 7))
  {
    OneDigitMonth();
    BlankBeforeDay();
  }

  /** A one-digit month and day. */
  lemma OneDigitMonth()
    ensures ParseYmd("2024-1-5") == Ok(Date(2024, 1, 5))
  {
    FourDigits("2024-1-5"[..4]);
    assert MonthCandidates("2024-1-5", 5) == [(1, 6)];
  }

  /** A blank before a one-digit day, after a two-digit month. */
  lemma BlankBeforeDay()
    ensures ParseYmd("2024-10- 7") == Ok(Date(2024, 10, 7))
  {
    FourDigits("2024-10- 7"[..4]);
    assert MonthCandidates("2024-10- 7", 5) == [(10, 7), (1, 6)];
  }

  /** Impossible dates raise ValueError: February 30, and February 29 of a
      non-leap century year; February 29 of a leap year is accepted. */
  lemma RejectedDays()
    ensures ParseYmd("2023-02-30") == Err(ValueError)
    ensures ParseYmd("1900-02-29") == Err(ValueError)
    ensures ParseYmd("2024-02-29") == Ok(Date(2024, 2, 29))
  {
    FebruaryDay("2023-02-30", 2023, 30);
    assert DaysInMonth(2023, 2) == 28;
    FebruaryDay("1900-02-29", 1900, 29);
    assert DaysInMonth(1900, 2) == 28;
    FebruaryDay("2024-02-29", 2024, 29);
    assert DaysInMonth(2024, 2) == 29;
  }

  /** A February date "YYYY-02-DD" with a two-digit day from 10 to 31 and a
      year from 1 reads as year YYYY, month 2, day DD, and is then accepted
      exactly when February of that year has the day. */
  lemma FebruaryDay(s: string, y: nat, d: nat)
    requires |s| == 10 && IsDigit(s[0]) && IsDigit(s[1]) && IsDigit(s[2]) && IsDigit(s[3])
    requires y == DigitValue(s[0]) * 1000 + DigitValue(s[1]) * 100 + DigitValue(s[2]) * 10 + DigitValue(s[3]) >= 1
    requires s[4] == '-' && s[5] == '0' && s[6] == '2' && s[7] == '-'
    requires '1' <= s[8] <= '3' && '0' <= s[9] <= '9' && (s[8] == '3' ==> s[9] <= '1')
    requires d == 10 * DigitValue(s[8]) + DigitValue(s[9])
    ensures ParseYmd(s) == (if d <= DaysInMonth(y, 2) then Ok(Date(y, 2, d)) else Err(ValueError))
  {
    assert AllDigits(s[..4]);
    FourDigits(s[..4]);
    assert MonthCandidates(s, 5) == [(2, 7)];
    assert DayAt(s, 8) == Some((d, 10));
  }

  /** Out-of-pattern strings raise ValueError: the year 0, month 13 (read
      as month 1 followed by a '3' where '-' is due), and a trailing
      character after the day. */
  lemma RejectedForms()
    ensures ParseYmd("0000-01-01") == Err(ValueError)
    ensures ParseYmd("2024-13-01") == Err(ValueError)
    ensures ParseYmd("2024-01-011") == Err(ValueError)
  {
    FourDigits("0000-01-01"[..4]);
    assert MonthCandidates("2024-13-01", 5) == [(1, 6)];
  }
}
