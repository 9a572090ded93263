/** Date requests of the weather datasets: parsing `%Y-%m-%d` strings, checking them against
    the dates that have data, and naming the remote files
    (`climetlab_maelstrom_power_production/weather/abc.py`). */
module WeatherDates {
  import opened Results
  import opened Calendar
  import opened DateRanges

  datatype DateError =
    | IncorrectDateFormat(text: string)  // IncorrectDateFormatException
    | DateUnavailable(date: Instant, first: string, last: string)  // DateUnavailableException

  // ---------------------------------------------------------------------------
  // Digits

  predicate IsDigit(c: char) {
    '0' <= c <= '9'
  }

  function DigitValue(c: char): (n: int)
    requires IsDigit(c)
    ensures 0 <= n <= 9
  {
    c as int - '0' as int
  }

  function DigitChar(n: int): (c: char)
    requires 0 <= n <= 9
    ensures IsDigit(c) && DigitValue(c) == n
  {
    ('0' as int + n) as char
  }

  /** A number written with exactly `width` decimal digits, zero-padded on the left. */
  function Padded(n: nat, width: nat): (s: string)
    ensures |s| == width
    ensures forall i :: 0 <= i < width ==> IsDigit(s[i])
    decreases width
  {
    if width == 0 then [] else Padded(n / 10, width - 1) + [DigitChar(n % 10)]
  }

  /** The value of a string of decimal digits. */
  function DigitsValue(s: string): (n: nat)
    requires forall i :: 0 <= i < |s| ==> IsDigit(s[i])
    decreases |s|
  {
    if s == [] then 0 else DigitsValue(s[..|s| - 1]) * 10 + DigitValue(s[|s| - 1])
  }

  /** Reading back a zero-padded number gives the number, when it fits the width. */
  lemma {:induction false} PaddedValue(n: nat, width: nat, bound: nat)
    requires bound == Power10(width) && n < bound
    ensures DigitsValue(Padded(n, width)) == n
    decreases width
  {
    if width > 0 {
      var s := Padded(n, width);
      assert s[..|s| - 1] == Padded(n / 10, width - 1);
      PaddedValue(n / 10, width - 1, Power10(width - 1));
    }
  }

  function Power10(k: nat): (p: nat)
    ensures p >= 1
  {
    if k == 0 then 1 else 10 * Power10(k - 1)
  }

  // ---------------------------------------------------------------------------
  // `datetime.strptime(date, "%Y-%m-%d")`

  /** The matches of `%m` (`1[0-2]|0[1-9]|[1-9]`) at the start of `s`, as (value, length),
      in the order the alternatives are tried. */
  function MonthMatches(s: string): (ms: seq<(int, nat)>)
    ensures forall k :: 0 <= k < |ms| ==> 1 <= ms[k].0 <= 12 && 1 <= ms[k].1 <= |s|
  {
    (if |s| >= 2 && s[0] == '1' && '0' <= s[1] <= '2' then [(10 + DigitValue(s[1]), 2)] else [])
    + (if |s| >= 2 && s[0] == '0' && '1' <= s[1] <= '9' then [(DigitValue(s[1]), 2)] else [])
    + (if |s| >= 1 && '1' <= s[0] <= '9' then [(DigitValue(s[0]), 1)] else [])
  }

  /** The matches of `%d` (`3[01]|[12]\d|0[1-9]|[1-9]| [1-9]`) at the start of `s`, in the
      order the alternatives are tried. */
  function DayMatches(s: string): (ds: seq<(int, nat)>)
    ensures forall k :: 0 <= k < |ds| ==> 1 <= ds[k].0 <= 31 && 1 <= ds[k].1 <= |s|
  {
    (if |s| >= 2 && s[0] == '3' && '0' <= s[1] <= '1' then [(30 + DigitValue(s[1]), 2)] else [])
    + (if |s| >= 2 && '1' <= s[0] <= '2' && IsDigit(s[1]) then [(10 * DigitValue(s[0]) + DigitValue(s[1]), 2)] else [])
    + (if |s| >= 2 && s[0] == '0' && '1' <= s[1] <= '9' then [(DigitValue(s[1]), 2)] else [])
    + (if |s| >= 1 && '1' <= s[0] <= '9' then [(DigitValue(s[0]), 1)] else [])
    + (if |s| >= 2 && s[0] == ' ' && '1' <= s[1] <= '9' then [(DigitValue(s[1]), 2)] else [])
  }

  /** A match of the whole pattern: the three fields and where the match ends. */
  datatype DateMatch = DateMatch(year: int, month: int, day: int, end: nat)

  /** The month alternatives from `ms` onward, each followed by `-` and a day; the first
      that lets the rest of the pattern match wins, and the day takes its first alternative. */
  function MatchMonthAndDay(s: string, pos: nat, year: int, ms: seq<(int, nat)>): (r: Option<DateMatch>)
    requires pos <= |s|
    requires forall k :: 0 <= k < |ms| ==> 1 <= ms[k].0 <= 12 && 1 <= ms[k].1 <= |s| - pos
    ensures r.Some? ==> r.value.year == year && 1 <= r.value.month <= 12
                        && 1 <= r.value.day <= 31 && r.value.end <= |s|
    decreases |ms|
  {
    if ms == [] then None
    else
      var (month, len) := ms[0];
      var dash := pos + len;
      if dash < |s| && s[dash] == '-' && DayMatches(s[dash + 1..]) != [] then
        var (day, dlen) := DayMatches(s[dash + 1..])[0];
        Some(DateMatch(year, month, day, dash + 1 + dlen))
      else MatchMonthAndDay(s, pos, year, ms[1..])
  }

  /** `re.match` of the pattern `%Y-%m-%d` at the start of `s` (it need not reach the end). */
  function MatchDateFormat(s: string): (r: Option<DateMatch>)
    ensures r.Some? ==> 0 <= r.value.year <= 9999 && 1 <= r.value.month <= 12
                        && 1 <= r.value.day <= 31 && r.value.end <= |s|
  {
    if |s| < 5 || !(forall i :: 0 <= i < 4 ==> IsDigit(s[i])) || s[4] != '-' then None
    else
      var year := DigitsValue(s[..4]);
      assert year <= 9999 by { DigitsBound(s[..4]); }
      MatchMonthAndDay(s, 5, year, MonthMatches(s[5..]))
  }

  lemma {:induction false} DigitsBound(s: string)
    requires forall i :: 0 <= i < |s| ==> IsDigit(s[i])
    ensures DigitsValue(s) < Power10(|s|)
    decreases |s|
  {
    if s != [] {
      DigitsBound(s[..|s| - 1]);
    }
  }

  /** `_convert_to_datetime`: the date at midnight when the whole string matches the format
      and names a real calendar date; otherwise IncorrectDateFormatException. */
  function Parse(s: string): (r: Result<Instant, DateError>)
    ensures r.Ok? ==> IsMidnight(r.value)
    ensures r.Err? ==> r.error == IncorrectDateFormat(s)
  {
    match MatchDateFormat(s)
    case None => Err(IncorrectDateFormat(s))
    case Some(m) =>
      if m.end != |s| then Err(IncorrectDateFormat(s))  // "unconverted data remains"
      else if !ValidDate(m.year, m.month, m.day) then Err(IncorrectDateFormat(s))
      else Ok(Midnight(m.year, m.month, m.day))
  }

  /** `date.strftime("%Y-%m-%d")`. */
  function FormatIso(d: Instant): (s: string)
    ensures |s| == 10
  {
    Padded(d.year, 4) + "-" + Padded(d.month, 2) + "-" + Padded(d.day, 2)
  }

  /** Two zero-padded digits. */
  lemma PaddedTwo(n: nat)
    requires n < 100
    ensures Padded(n, 2) == [DigitChar(n / 10), DigitChar(n % 10)]
  {
  }

  /** A two-digit month matches its first alternative, `1[0-2]` or `0[1-9]`. */
  lemma MonthMatchesPadded(month: int, rest: string)
    requires 1 <= month <= 12
    ensures MonthMatches(Padded(month, 2) + rest) != []
    ensures MonthMatches(Padded(month, 2) + rest)[0] == (month, 2)
  {
    var s := Padded(month, 2) + rest;
    PaddedTwo(month);
    assert s[0] == DigitChar(month / 10) && s[1] == DigitChar(month % 10);
    if month >= 10 {
      assert s[0] == '1' && '0' <= s[1] <= '2';
    } else {
      assert s[0] == '0';
    }
  }

  /** A two-digit day matches its first alternative, `3[01]`, `[12]\d` or `0[1-9]`. */
  lemma DayMatchesPadded(day: int)
    requires 1 <= day <= 31
    ensures DayMatches(Padded(day, 2)) != [] && DayMatches(Padded(day, 2))[0] == (day, 2)
  {
    var s := Padded(day, 2);
    PaddedTwo(day);
    if day >= 30 {
      assert s[0] == '3' && '0' <= s[1] <= '1';
    } else if day >= 10 {
      assert s[0] != '3' && '1' <= s[0] <= '2' && IsDigit(s[1]);
    } else {
      assert s[0] == '0' && '1' <= s[1] <= '9';
    }
  }

  /** The pattern matches a formatted date in full, field by field. */
  lemma MatchFormatIso(d: Instant)
    ensures MatchDateFormat(FormatIso(d)) == Some(DateMatch(d.year, d.month, d.day, 10))
  {
    var y, m, dd := Padded(d.year, 4), Padded(d.month, 2), Padded(d.day, 2);
    PaddedValue(d.year, 4, 10000);
    MonthMatchesPadded(d.month, "-" + dd);
    DayMatchesPadded(d.day);
    MatchFields(y, m, dd, d.month, d.day);
  }

  /** Four digits, `-`, a month field of two characters, `-` and a day field of two
      characters match the whole pattern. */
  lemma MatchFields(y: string, m: string, dd: string, month: int, day: int)
    requires |y| == 4 && (forall i :: 0 <= i < 4 ==> IsDigit(y[i])) && |m| == 2 && |dd| == 2
    requires MonthMatches(m + ("-" + dd)) != [] && MonthMatches(m + ("-" + dd))[0] == (month, 2)
    requires DayMatches(dd) != [] && DayMatches(dd)[0] == (day, 2)
    ensures MatchDateFormat(y + "-" + m + "-" + dd) == Some(DateMatch(DigitsValue(y), month, day, 10))
  {
    var s := y + "-" + m + "-" + dd;
    assert s[..4] == y;
    assert s[4] == '-';
    var ms := MonthMatches(s[5..]);
    assert s[5..] == m + ("-" + dd);
    assert ms != [] && ms[0] == (month, 2);
    assert s[7] == '-';
    assert s[8..] == dd;
    assert MatchMonthAndDay(s, 5, DigitsValue(y), ms) == Some(DateMatch(DigitsValue(y), month, day, 10));
  }

  /** Parsing a formatted date gives that date at midnight. */
  lemma ParseFormatIso(d: Instant)
    ensures Parse(FormatIso(d)) == Ok(Midnight(d.year, d.month, d.day))
  {
    MatchFormatIso(d);
  }

  // ---------------------------------------------------------------------------
  // AVAILABLE_DATA_DATES: every day from 2017-01-01 to 2020-12-31, at midnight

  const FirstAvailable: Instant := DateTime(2017, 1, 1, 0, 0, 0, 0)
  const LastAvailable: Instant := DateTime(2020, 12, 31, 0, 0, 0, 0)

  /** `pd.date_range(start=2017-01-01, end=2020-12-31)`, one entry per day: the four
      whole years 2017 to 2020, listing every day of them once, in order, at midnight. */
  function AvailableDates(): (ds: seq<Instant>)
    ensures ListsDaysOf(ds, 2017, 2020)
  {
    var y17, y18, y19, y20 := YearDates(2017, 1), YearDates(2018, 1), YearDates(2019, 1), YearDates(2020, 1);
    YearListsDays(2017);
    YearListsDays(2018);
    YearListsDays(2019);
    YearListsDays(2020);
    JoinYears(y17, y18, 2017, 2017, 2018);
    JoinYears(y17 + y18, y19, 2017, 2018, 2019);
    JoinYears(y17 + y18 + y19, y20, 2017, 2019, 2020);
    y17 + y18 + y19 + y20
  }

  /** `_date_is_available`: a midnight from the first to the last available date
      (`DateIsAvailableIff` shows this is membership in `AvailableDates()`). */
  predicate DateIsAvailable(d: Instant)
    ensures DateIsAvailable(d) <==> 2017 <= d.year <= 2020 && IsMidnight(d)
  {
    IsMidnight(d) && NotAfter(FirstAvailable, d) && NotAfter(d, LastAvailable)
  }

  /** A date is available exactly when it is one of the available dates. */
  lemma DateIsAvailableIff(d: Instant)
    ensures DateIsAvailable(d) <==> d in AvailableDates()
  {
    AvailableWithin(AvailableDates(), d);
  }

  /** In a list of the days of 2017 to 2020, a date appears exactly when it is available. */
  lemma AvailableWithin(s: seq<Instant>, d: Instant)
    requires ListsDaysOf(s, 2017, 2020)
    ensures DateIsAvailable(d) <==> d in s
  {
  }

  // ---------------------------------------------------------------------------
  // Checking, converting and sorting requested dates

  /** The error `_check_dates_availability` raises for `d`; its message names the first and
      the last available date. */
  function Unavailable(d: Instant): DateError {
    DateUnavailable(d, FormatIso(FirstAvailable), FormatIso(LastAvailable))
  }

  /** The first position holding an unavailable date, if any. */
  predicate FirstUnavailableAt(dates: seq<Instant>, i: int) {
    && 0 <= i < |dates|
    && !DateIsAvailable(dates[i])
    && forall j :: 0 <= j < i ==> DateIsAvailable(dates[j])
  }

  /** `_check_dates_availability`: passes when every date is available, and otherwise
      fails with the first unavailable date. */
  method CheckDatesAvailability(dates: seq<Instant>) returns (r: Result<(), DateError>)
    ensures r.Ok? <==> forall i :: 0 <= i < |dates| ==> DateIsAvailable(dates[i])
    ensures r.Err? ==> exists i :: FirstUnavailableAt(dates, i) && r.error == Unavailable(dates[i])
  {
    var i := 0;
    while i < |dates|
      invariant 0 <= i <= |dates|
      invariant forall j :: 0 <= j < i ==> DateIsAvailable(dates[j])
    {
      if !DateIsAvailable(dates[i]) {
        assert FirstUnavailableAt(dates, i);
        return Err(Unavailable(dates[i]));
      }
      i := i + 1;
    }
    return Ok(());
  }

  /** `list(map(_convert_to_datetime, dates))`: every string parsed, or the error of the
      first that does not parse. */
  function ParseAll(texts: seq<string>): (r: Result<seq<Instant>, DateError>)
    ensures r.Ok? <==> forall i :: 0 <= i < |texts| ==> Parse(texts[i]).Ok?
    ensures r.Ok? ==> |r.value| == |texts|
    ensures r.Ok? ==> forall i :: 0 <= i < |texts| ==> r.value[i] == Parse(texts[i]).value
    ensures r.Err? ==> exists i ::
      && 0 <= i < |texts| && Parse(texts[i]).Err?
      && (forall j :: 0 <= j < i ==> Parse(texts[j]).Ok?)
      && r.error == IncorrectDateFormat(texts[i])
  {
    if texts == [] then Ok([])
    else
      var first :- Parse(texts[0]);
      assert forall i :: 1 <= i < |texts| ==> texts[1..][i - 1] == texts[i];
      var rest := ParseAll(texts[1..]);
      if rest.Err? then
        assert exists i ::
          && 0 <= i < |texts| && Parse(texts[i]).Err?
          && (forall j :: 0 <= j < i ==> Parse(texts[j]).Ok?)
          && rest.error == IncorrectDateFormat(texts[i]) by {
          var k :| 0 <= k < |texts[1..]| && Parse(texts[1..][k]).Err?
            && (forall j :: 0 <= j < k ==> Parse(texts[1..][j]).Ok?)
            && rest.error == IncorrectDateFormat(texts[1..][k]);
          assert Parse(texts[k + 1]).Err? && rest.error == IncorrectDateFormat(texts[k + 1]);
        }
        Err(rest.error)
      else
        Ok([first] + rest.value)
  }

  predicate SortedDates(ds: seq<DateTime>) {
    forall i, j :: 0 <= i < j < |ds| ==> NotAfter(ds[i], ds[j])
  }

  /** `d` placed before the first date of `ds` that it does not come after. */
  function Insert(d: Instant, ds: seq<Instant>): (r: seq<Instant>)
    requires SortedDates(ds)
    ensures SortedDates(r)
    ensures multiset(r) == multiset(ds) + multiset{d}
  {
    if ds == [] then [d]
    else if NotAfter(d, ds[0]) then
      InsertFrontSorted(d, ds);
      [d] + ds
    else
      var rest := Insert(d, ds[1..]);
      assert ds == [ds[0]] + ds[1..];
      InsertBehindSorted(d, ds, rest);
      [ds[0]] + rest
  }

  /** A date not after the head of a sorted sequence can go in front of it. */
  lemma InsertFrontSorted(d: Instant, ds: seq<Instant>)
    requires SortedDates(ds) && ds != [] && NotAfter(d, ds[0])
    ensures SortedDates([d] + ds)
  {
    var r := [d] + ds;
    forall i, j | 0 <= i < j < |r| ensures NotAfter(r[i], r[j]) {
      if i == 0 && j > 1 {
        assert NotAfter(ds[0], ds[j - 1]);
        if d != ds[0] && ds[0] != ds[j - 1] {
          BeforeTransitive(d, ds[0], ds[j - 1]);
        }
      } else if i > 0 {
        assert r[i] == ds[i - 1] && r[j] == ds[j - 1];
      }
    }
  }

  /** When `d` comes after the head, the head stays in front of the rest with `d` inserted. */
  lemma InsertBehindSorted(d: Instant, ds: seq<Instant>, rest: seq<Instant>)
    requires SortedDates(ds) && ds != [] && !NotAfter(d, ds[0])
    requires SortedDates(rest) && multiset(rest) == multiset(ds[1..]) + multiset{d}
    ensures SortedDates([ds[0]] + rest)
  {
    var r := [ds[0]] + rest;
    BeforeTotal(d, ds[0]);
    forall j | 0 < j < |r| ensures NotAfter(ds[0], r[j]) {
      assert r[j] == rest[j - 1];
      assert rest[j - 1] in multiset(rest);
      if rest[j - 1] != d {
        assert rest[j - 1] in multiset(ds[1..]);
        var k :| 0 <= k < |ds[1..]| && ds[1..][k] == rest[j - 1];
        assert ds[k + 1] == rest[j - 1];
      }
    }
    forall i, j | 0 <= i < j < |r| ensures NotAfter(r[i], r[j]) {
      if i > 0 {
        assert r[i] == rest[i - 1] && r[j] == rest[j - 1];
      }
    }
  }

  /** `sorted(dates)`: the same dates in ascending order. */
  function SortDates(ds: seq<Instant>): (r: seq<Instant>)
    ensures SortedDates(r)
    ensures multiset(r) == multiset(ds)
  {
    if ds == [] then []
    else
      assert ds == [ds[0]] + ds[1..];
      Insert(ds[0], SortDates(ds[1..]))
  }

  /** The dates a user asks for: one string, or a list of strings. */
  datatype DateRequest = Single(text: string) | Many(texts: seq<string>)

  function Texts(request: DateRequest): seq<string> {
    match request
    case Single(text) => [text]
    case Many(texts) => texts
  }

  /** `_convert_dates`: every string is parsed first (a format error wins over an
      unavailable date), then every date is checked, and the dates come back sorted. */
  method ConvertDates(request: DateRequest) returns (r: Result<seq<Instant>, DateError>)
    ensures ParseAll(Texts(request)).Err? ==> r == Err(ParseAll(Texts(request)).error)
    ensures ParseAll(Texts(request)).Ok? ==>
      var parsed := ParseAll(Texts(request)).value;
      && (r.Ok? <==> forall i :: 0 <= i < |parsed| ==> DateIsAvailable(parsed[i]))
      && (r.Err? ==> exists i :: FirstUnavailableAt(parsed, i) && r.error == Unavailable(parsed[i]))
      && (r.Ok? ==> SortedDates(r.value) && multiset(r.value) == multiset(parsed))
  {
    var all := ParseAll(Texts(request));
    if all.Err? {
      return Err(all.error);
    }
    var parsed := all.value;
    var checked := CheckDatesAvailability(parsed);
    if checked.Err? {
      assert parsed == ParseAll(Texts(request)).value;
      return Err(checked.error);
    }
    return Ok(SortDates(parsed));
  }

  // ---------------------------------------------------------------------------
  // Remote file names and the weather dataset

  /** `date.strftime("%Y%m%d")`. */
  function RemoteDate(d: Instant): (s: string)
    ensures |s| == 8
  {
    Padded(d.year, 4) + Padded(d.month, 2) + Padded(d.day, 2)
  }

  /** The two model runs of each day, `MODEL_TIMESTAMP_1` and `MODEL_TIMESTAMP_2`. */
  const ModelTimestamps: seq<string> := ["00", "12"]

  /** The parts of a name `YYYYMMDD_<timestamp>`. */
  datatype RemoteName = RemoteName(year: int, month: int, day: int, timestamp: string)

  /** Reads a file name back into its date fields and its model timestamp. */
  function DecodeRemoteName(name: string): Option<RemoteName> {
    if |name| < 9 || name[8] != '_' || !(forall i :: 0 <= i < 8 ==> IsDigit(name[i])) then None
    else Some(RemoteName(DigitsValue(name[..4]), DigitsValue(name[4..6]),
                         DigitsValue(name[6..8]), name[9..]))
  }

  /** `f"{date}_{timestamp}"` for one date and one timestamp. */
  function NameOf(d: Instant, timestamp: string): string {
    RemoteDate(d) + "_" + timestamp
  }

  /** A file name gives back the date and the timestamp it was made from. */
  lemma DecodeNameOf(d: Instant, timestamp: string)
    ensures DecodeRemoteName(NameOf(d, timestamp)) ==
      Some(RemoteName(d.year, d.month, d.day, timestamp))
  {
    var name := NameOf(d, timestamp);
    var y, m, dd := Padded(d.year, 4), Padded(d.month, 2), Padded(d.day, 2);
    assert name == y + m + dd + "_" + timestamp;
    assert name[..4] == y && name[4..6] == m && name[6..8] == dd && name[9..] == timestamp;
    PaddedValue(d.year, 4, 10000);
    PaddedValue(d.month, 2, 100);
    PaddedValue(d.day, 2, 100);
  }

  /** `itertools.product(dates, timestamps)`: each date with "00", then with "12". */
  function Product(dates: seq<Instant>): (pairs: seq<(Instant, string)>)
    ensures |pairs| == 2 * |dates|
  {
    if dates == [] then []
    else [(dates[0], ModelTimestamps[0]), (dates[0], ModelTimestamps[1])] + Product(dates[1..])
  }

  /** The pairs of the `i`-th date sit at positions `2 * i` and `2 * i + 1`. */
  lemma {:induction false} ProductAt(dates: seq<Instant>, i: int)
    requires 0 <= i < |dates|
    ensures Product(dates)[2 * i] == (dates[i], ModelTimestamps[0])
    ensures Product(dates)[2 * i + 1] == (dates[i], ModelTimestamps[1])
    decreases i
  {
    if i > 0 {
      ProductAt(dates[1..], i - 1);
      assert dates[1..][i - 1] == dates[i];
    }
  }

  /** `f"{date}_{timestamp}"` for every pair of the product. */
  function NamesWithTimestamps(dates: seq<Instant>): (names: seq<string>)
    ensures |names| == 2 * |dates|
  {
    var pairs := Product(dates);
    seq(|pairs|, k requires 0 <= k < |pairs| => NameOf(pairs[k].0, pairs[k].1))
  }

  /** A weather dataset and the dates it covers (`self.date`). */
  class Weather {
    var date: seq<Instant>

    /** Every date of the dataset has data, and the dates are in ascending order. */
    predicate Valid()
      reads this
    {
      && (forall i :: 0 <= i < |date| ==> DateIsAvailable(date[i]))
      && SortedDates(date)
    }

    /** A dataset over dates that all have data, in ascending order. */
    constructor (dates: seq<Instant>)
      requires forall i :: 0 <= i < |dates| ==> DateIsAvailable(dates[i])
      requires SortedDates(dates)
      ensures date == dates
      ensures Valid()
    {
      date := dates;
    }

    /** `Weather.__init__`, date selection: all available dates when no date is given,
        otherwise the converted request (loading the files is not modelled). */
    static method Create(request: Option<DateRequest>) returns (r: Result<Weather, DateError>)
      ensures r.Ok? ==> fresh(r.value) && r.value.Valid()
      ensures request.None? ==> r.Ok? && r.value.date == AvailableDates()
      ensures request.Some? && ParseAll(Texts(request.value)).Err? ==>
        r == Err(ParseAll(Texts(request.value)).error)
      ensures request.Some? && ParseAll(Texts(request.value)).Ok? ==>
        var parsed := ParseAll(Texts(request.value)).value;
        && (r.Ok? <==> forall i :: 0 <= i < |parsed| ==> DateIsAvailable(parsed[i]))
        && (r.Ok? ==> multiset(r.value.date) == multiset(parsed))
        && (r.Err? ==> exists i :: FirstUnavailableAt(parsed, i) && r.error == Unavailable(parsed[i]))
    {
      if request.None? {
        AvailableDatesValid();
        var w := new Weather(AvailableDates());
        return Ok(w);
      }
      var converted := ConvertDates(request.value);
      if converted.Err? {
        return Err(converted.error);
      }
      ghost var parsed := ParseAll(Texts(request.value)).value;
      assert forall i :: 0 <= i < |converted.value| ==> DateIsAvailable(converted.value[i]) by {
        forall i | 0 <= i < |converted.value| ensures DateIsAvailable(converted.value[i]) {
          assert converted.value[i] in multiset(parsed);
        }
      }
      var w := new Weather(converted.value);
      return Ok(w);
    }

    /** `_add_timestamps_to_each_date`: two file names per date, in date order. */
    function AddTimestampsToEachDate(): (names: seq<string>)
      reads this
      ensures |names| == 2 * |date|
      ensures forall i :: 0 <= i < |date| ==>
        DecodeRemoteName(names[2 * i]) == Some(RemoteName(date[i].year, date[i].month, date[i].day, "00"))
        && DecodeRemoteName(names[2 * i + 1]) == Some(RemoteName(date[i].year, date[i].month, date[i].day, "12"))
    {
      var names := NamesWithTimestamps(date);
      forall i | 0 <= i < |date|
        ensures DecodeRemoteName(names[2 * i]) == Some(RemoteName(date[i].year, date[i].month, date[i].day, "00"))
        ensures DecodeRemoteName(names[2 * i + 1]) == Some(RemoteName(date[i].year, date[i].month, date[i].day, "12"))
      {
        ProductAt(date, i);
        DecodeNameOf(date[i], "00");
        DecodeNameOf(date[i], "12");
      }
      names
    }
  }

  /** The full list of available dates is a valid selection. */
  lemma AvailableDatesValid()
    ensures forall i :: 0 <= i < |AvailableDates()| ==> DateIsAvailable(AvailableDates()[i])
    ensures SortedDates(AvailableDates())
  {
    var ds := AvailableDates();
    forall i | 0 <= i < |ds| ensures DateIsAvailable(ds[i]) {
      DateIsAvailableIff(ds[i]);
    }
  }

  // ---------------------------------------------------------------------------
  // The cases of the unit tests, and a few more of `strptime`'s

  /** The value of four digits, place by place. */
  lemma FourDigits(s: string)
    requires |s| == 4 && forall i :: 0 <= i < 4 ==> IsDigit(s[i])
    ensures DigitsValue(s) ==
      1000 * DigitValue(s[0]) + 100 * DigitValue(s[1]) + 10 * DigitValue(s[2]) + DigitValue(s[3])
  {
    var s3, s2, s1 := s[..3], s[..2], s[..1];
    assert s3[..2] == s2 && s2[..1] == s1 && s1[..0] == [];
    assert DigitsValue(s1) == DigitValue(s[0]);
    assert DigitsValue(s2) == DigitsValue(s1) * 10 + DigitValue(s[1]);
    assert DigitsValue(s3) == DigitsValue(s2) * 10 + DigitValue(s[2]);
    assert DigitsValue(s) == DigitsValue(s3) * 10 + DigitValue(s[3]);
  }

  lemma ParseIsoDate()
    ensures Parse("2020-01-01") == Ok(Midnight(2020, 1, 1))
  {
    var d: Instant := Midnight(2020, 1, 1);
    assert FormatIso(d) == "2020-01-01" by {
      assert Padded(2020, 4) == "2020";
      assert Padded(1, 2) == "01";
    }
    ParseFormatIso(d);
  }

  lemma ParseDayFirstDate()
    ensures Parse("01-01-2020") == Err(IncorrectDateFormat("01-01-2020"))
  {
    assert !IsDigit("01-01-2020"[2]);
  }

  /** `%m` and `%d` also take a single digit. */
  lemma ParseOneDigitFields()
    ensures Parse("2020-1-5") == Ok(Midnight(2020, 1, 5))
  {
    var s := "2020-1-5";
    assert s[..4] == "2020";
    FourDigits("2020");
    assert s[5..] == "1-5";
    assert MonthMatches("1-5") == [(1, 1)];
    assert s[7..] == "5";
    assert DayMatches("5") == [(5, 1)];
    assert MatchDateFormat(s) == Some(DateMatch(2020, 1, 5, 8));
  }

  /** `%d` also takes a space before a single digit. */
  lemma ParseSpacePaddedDay()
    ensures Parse("2020-01- 5") == Ok(Midnight(2020, 1, 5))
  {
    var s := "2020-01- 5";
    assert s[..4] == "2020";
    FourDigits("2020");
    assert s[5..] == "01- 5";
    assert MonthMatches("01- 5") == [(1, 2)];
    assert s[8..] == " 5";
    assert DayMatches(" 5") == [(5, 2)];
    assert MatchDateFormat(s) == Some(DateMatch(2020, 1, 5, 10));
  }

  /** A day the calendar lacks is a format error. */
  lemma ParseRejectsMissingDay()
    ensures Parse("2019-02-29") == Err(IncorrectDateFormat("2019-02-29"))
  {
    var s := "2019-02-29";
    assert s[..4] == "2019";
    FourDigits("2019");
    assert s[5..] == "02-29";
    assert MonthMatches("02-29")[0] == (2, 2);
    assert s[8..] == "29";
    assert DayMatches("29")[0] == (29, 2);
    assert MatchDateFormat(s) == Some(DateMatch(2019, 2, 29, 10));
  }

  /** Text left after the date is a format error ("unconverted data remains"). */
  lemma ParseRejectsTrailingText()
    ensures Parse("2020-01-011") == Err(IncorrectDateFormat("2020-01-011"))
  {
    var s := "2020-01-011";
    assert s[..4] == "2020";
    FourDigits("2020");
    assert s[5..] == "01-011";
    assert MonthMatches("01-011")[0] == (1, 2);
    assert s[8..] == "011";
    assert DayMatches("011")[0] == (1, 2);
    assert MatchDateFormat(s) == Some(DateMatch(2020, 1, 1, 10));
  }

  lemma AvailabilityExamples()
    ensures DateIsAvailable(DateTime(2019, 1, 1, 0, 0, 0, 0))
    ensures !DateIsAvailable(DateTime(2000, 1, 1, 0, 0, 0, 0))
    ensures !DateIsAvailable(DateTime(2019, 1, 1, 12, 0, 0, 0))
    ensures !DateIsAvailable(DateTime(2021, 1, 1, 0, 0, 0, 0))
  {
  }

  /** The message of an unavailable date names 2017-01-01 and 2020-12-31. */
  lemma UnavailableMessage(d: Instant)
    ensures Unavailable(d) == DateUnavailable(d, "2017-01-01", "2020-12-31")
  {
    FirstAvailableText();
    LastAvailableText();
  }

  lemma FirstAvailableText()
    ensures FormatIso(FirstAvailable) == "2017-01-01"
  {
    assert Padded(2017, 4) == "2017";
    assert Padded(1, 2) == "01";
  }

  lemma LastAvailableText()
    ensures FormatIso(LastAvailable) == "2020-12-31"
  {
    assert Padded(2020, 4) == "2020";
    assert Padded(12, 2) == "12" && Padded(31, 2) == "31";
  }

  lemma ParseAllExample()
    ensures ParseAll(["2019-01-01", "2019-01-02"]) ==
      Ok([Midnight(2019, 1, 1), Midnight(2019, 1, 2)])
  {
    var d1: Instant, d2: Instant := Midnight(2019, 1, 1), Midnight(2019, 1, 2);
    assert FormatIso(d1) == "2019-01-01" && FormatIso(d2) == "2019-01-02" by {
      assert Padded(2019, 4) == "2019";
      assert Padded(1, 2) == "01" && Padded(2, 2) == "02";
    }
    ParseFormatIso(d1);
    ParseFormatIso(d2);
    ParseAllOfTwo("2019-01-01", "2019-01-02");
  }

  lemma ParseAllOfTwo(a: string, b: string)
    requires Parse(a).Ok? && Parse(b).Ok?
    ensures ParseAll([a, b]) == Ok([Parse(a).value, Parse(b).value])
  {
    var texts := [a, b];
    assert Parse(texts[0]).Ok? && Parse(texts[1]).Ok?;
    var r := ParseAll(texts);
    assert r.Ok? && |r.value| == 2;
    assert r.value[0] == Parse(a).value && r.value[1] == Parse(b).value;
    assert r.value == [Parse(a).value, Parse(b).value];
  }

  lemma SortDatesExample()
    ensures SortDates([Midnight(2019, 1, 2), Midnight(2019, 1, 1)]) ==
      [Midnight(2019, 1, 1), Midnight(2019, 1, 2)]
  {
    var a, b := Midnight(2019, 1, 1), Midnight(2019, 1, 2);
    assert [b, a][1..] == [a];
    assert SortDates([a]) == [a];
  }

  lemma NamesExample()
    ensures NamesWithTimestamps([Midnight(2019, 1, 1)]) == ["20190101_00", "20190101_12"]
  {
    var d: Instant := Midnight(2019, 1, 1);
    assert RemoteDate(d) == "20190101" by {
      assert Padded(2019, 4) == "2019";
      assert Padded(1, 2) == "01";
    }
    var names := NamesWithTimestamps([d]);
    ProductAt([d], 0);
    assert names[0] == "20190101" + "_" + "00" == "20190101_00";
    assert names[1] == "20190101" + "_" + "12" == "20190101_12";
    assert names == [names[0], names[1]];
  }
}
