/** The days of a range of whole years, at midnight and in calendar order, as
    `pandas.date_range` with a daily frequency lists them. */
module DateRanges {
  import opened Calendar

  /** The days of one month, at midnight, in order. */
  function MonthDates(year: int, month: int): (ds: seq<Instant>)
    requires 1 <= year <= 9999 && 1 <= month <= 12
    ensures |ds| == DaysInMonth(year, month)
    ensures forall i :: 0 <= i < |ds| ==> ds[i] == Midnight(year, month, i + 1)
  {
    seq(DaysInMonth(year, month), i requires 0 <= i < DaysInMonth(year, month) =>
      Midnight(year, month, i + 1))
  }

  /** The days of `year` from the start of `month` to the end of the year. */
  function YearDates(year: int, month: int): seq<Instant>
    requires 1 <= year <= 9999 && 1 <= month <= 13
    decreases 13 - month
  {
    if month == 13 then [] else MonthDates(year, month) + YearDates(year, month + 1)
  }

  predicate DatesIncreasing(ds: seq<DateTime>) {
    forall i, j :: 0 <= i < j < |ds| ==> Before(ds[i], ds[j])
  }

  function Last<T>(s: seq<T>): T
    requires s != []
  {
    s[|s| - 1]
  }

  lemma LastOfConcat<T>(a: seq<T>, b: seq<T>)
    requires a + b != []
    ensures Last(a + b) == if b == [] then Last(a) else Last(b)
  {
  }

  // ---------------------------------------------------------------------------
  // Days of a year

  lemma {:induction false} YearDatesMembers(year: int, month: int)
    requires 1 <= year <= 9999 && 1 <= month <= 13
    ensures forall d :: d in YearDates(year, month) <==>
      d.year == year && month <= d.month && ValidDateTime(d) && IsMidnight(d)
    decreases 13 - month
  {
    if month < 13 {
      YearDatesMembers(year, month + 1);
      forall d: DateTime | d.year == year && d.month == month && ValidDateTime(d) && IsMidnight(d)
        ensures d in MonthDates(year, month)
      {
        assert MonthDates(year, month)[d.day - 1] == d;
      }
    }
  }

  /** Joining two increasing runs, the first wholly before the second, stays increasing. */
  lemma ConcatIncreasing(a: seq<DateTime>, b: seq<DateTime>)
    requires DatesIncreasing(a) && DatesIncreasing(b)
    requires forall i, j :: 0 <= i < |a| && 0 <= j < |b| ==> Before(a[i], b[j])
    ensures DatesIncreasing(a + b)
  {
    var c := a + b;
    forall i, j | 0 <= i < j < |c| ensures Before(c[i], c[j]) {
      if j < |a| {
        assert c[i] == a[i] && c[j] == a[j];
      } else if i < |a| {
        assert c[i] == a[i] && c[j] == b[j - |a|];
      } else {
        assert c[i] == b[i - |a|] && c[j] == b[j - |a|];
      }
    }
  }

  lemma {:induction false} YearDatesIncreasing(year: int, month: int)
    requires 1 <= year <= 9999 && 1 <= month <= 13
    ensures DatesIncreasing(YearDates(year, month))
    decreases 13 - month
  {
    if month < 13 {
      var a, b := MonthDates(year, month), YearDates(year, month + 1);
      YearDatesIncreasing(year, month + 1);
      YearDatesMembers(year, month + 1);
      forall i, j | 0 <= i < |a| && 0 <= j < |b| ensures Before(a[i], b[j]) {
        assert b[j] in b;
      }
      ConcatIncreasing(a, b);
    }
  }

  /** Increasing dates up to `year` followed by increasing dates after it are increasing. */
  lemma ConcatByYear(a: seq<DateTime>, b: seq<DateTime>, year: int)
    requires DatesIncreasing(a) && DatesIncreasing(b)
    requires forall i :: 0 <= i < |a| ==> a[i].year <= year
    requires forall j :: 0 <= j < |b| ==> year < b[j].year
    ensures DatesIncreasing(a + b)
  {
    YearsSeparate(a, b, year);
    ConcatIncreasing(a, b);
  }

  /** Dates of years up to `year` come before dates of later years. */
  lemma YearsSeparate(a: seq<DateTime>, b: seq<DateTime>, year: int)
    requires forall i :: 0 <= i < |a| ==> a[i].year <= year
    requires forall j :: 0 <= j < |b| ==> year < b[j].year
    ensures forall i, j :: 0 <= i < |a| && 0 <= j < |b| ==> Before(a[i], b[j])
  {
  }

  /** A year from the start of `month` begins on the 1st of that month and ends on 31 December. */
  lemma {:induction false} YearDatesEnds(year: int, month: int)
    requires 1 <= year <= 9999 && 1 <= month <= 12
    ensures YearDates(year, month) != []
    ensures YearDates(year, month)[0] == Midnight(year, month, 1)
    ensures Last(YearDates(year, month)) == Midnight(year, 12, 31)
    decreases 12 - month
  {
    var a := MonthDates(year, month);
    if month < 12 {
      YearDatesEnds(year, month + 1);
      LastOfConcat(a, YearDates(year, month + 1));
    } else {
      assert YearDates(year, month + 1) == [];
      LastOfConcat(a, []);
    }
  }

  // ---------------------------------------------------------------------------
  // Days of consecutive years

  /** `s` lists every day of the years `first` to `last` once, at midnight and in order,
      from 1 January of `first` to 31 December of `last`. */
  ghost predicate ListsDaysOf(s: seq<Instant>, first: int, last: int) {
    && DatesIncreasing(s)
    && (forall d: Instant :: d in s <==> first <= d.year <= last && IsMidnight(d))
    && s != [] && s[0] == Midnight(first, 1, 1) && Last(s) == Midnight(last, 12, 31)
  }

  /** The days of one year list that year. */
  lemma YearListsDays(year: int)
    requires 1 <= year <= 9999
    ensures ListsDaysOf(YearDates(year, 1), year, year)
  {
    YearDatesMembers(year, 1);
    YearDatesIncreasing(year, 1);
    YearDatesEnds(year, 1);
  }

  /** The days of some years followed by the days of the years after them list all of
      those years. */
  lemma JoinYears(a: seq<Instant>, b: seq<Instant>, first: int, mid: int, last: int)
    requires ListsDaysOf(a, first, mid) && ListsDaysOf(b, mid + 1, last)
    ensures ListsDaysOf(a + b, first, last)
  {
    forall i | 0 <= i < |a| ensures a[i].year <= mid {
      assert a[i] in a;
    }
    forall j | 0 <= j < |b| ensures mid < b[j].year {
      assert b[j] in b;
    }
    ConcatByYear(a, b, mid);
    forall d: Instant ensures d in a + b <==> first <= d.year <= last && IsMidnight(d) {
      assert d in a + b <==> d in a || d in b;
    }
    LastOfConcat(a, b);
  }
}
