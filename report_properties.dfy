/**
 * Properties of the adoption report that the two report variants promise:
 * the window is the `period` calendar days ending on the reference date,
 * rows outside it, row order and repeated rows change nothing, the report
 * holds one row per cohort with rows in the window, and every percentage
 * lies between 0 and 100.
 */
module ReportProperties {
  import opened Wrappers
  import opened Calendar
  import opened DateFormat
  import opened Adoption
  import opened AdoptionProperties

  /**
   * The window start is the reference date moved back `period` calendar
   * days, in the same eight-digit form; the computation fails with
   * InvalidDate when the reference date is no calendar date and with
   * DateOutOfRange when the start leaves the years 1 to 9999.
   */
  lemma WindowStartMeaning(date: string, period: int)
    requires IsDateString(date)
    ensures Parse(date).None? ==> WindowStart(date, period) == Failure(InvalidDate)
    ensures Parse(date).Some? ==>
      var target := Ordinal(Parse(date).value) - period;
      && (WindowStart(date, period).Success? <==> 1 <= target <= MaxOrdinal)
      && (WindowStart(date, period).Failure? ==> WindowStart(date, period).error == DateOutOfRange)
      && (WindowStart(date, period).Success? ==>
            var begin := WindowStart(date, period).value;
            IsDateString(begin) && Parse(begin).Some? && Ordinal(Parse(begin).value) == target)
  {
    if Parse(date).Some? {
      var end := Parse(date).value;
      var begin := AddDays(end, -period);
      AddDaysOrdinal(end, -period);
      InRangeByOrdinal(begin);
      if InRange(begin) {
        ParseFormat(begin);
      }
    }
  }

  /**
   * For a row whose date is a well-formed date string, the string comparison
   * `begin < submission_date_s3 <= date` holds exactly when its day lies in
   * the `period` days that end on the reference date.
   */
  lemma WindowIsTrailingDays(date: string, period: int, begin: string, s: string)
    requires IsDateString(date) && WindowStart(date, period) == Success(begin)
    requires IsDateString(s) && Parse(s).Some?
    ensures Parse(date).Some?
    ensures InWindow(s, date, begin) <==>
      Ordinal(Parse(date).value) - period < Ordinal(Parse(s).value) <= Ordinal(Parse(date).value)
  {
    var end := Parse(date).value;
    var first := AddDays(end, -period);
    var day := Parse(s).value;
    assert begin == Format(first);
    AddDaysOrdinal(end, -period);
    FormatParse(date);
    FormatParse(s);
    FormatOrder(day, end);
    FormatInjective(day, end);
    FormatOrder(first, day);
  }

  /** A cohort is reported when it is "All" or a requested country and has a row in the window. */
  lemma ReportedKeysMeaning(data: seq<Row>, countries: seq<string>, date: string, begin: string, key: string)
    ensures key in ReportedKeys(data, countries, date, begin) <==>
      (key == AllLabel || key in countries) &&
      exists r :: r in data && InWindow(r.submissionDate, date, begin) && (key == AllLabel || r.country == Some(key))
  {
    if exists r :: r in data && InWindow(r.submissionDate, date, begin) && (key == AllLabel || r.country == Some(key)) {
      var r :| r in data && InWindow(r.submissionDate, date, begin) && (key == AllLabel || r.country == Some(key));
      if key == AllLabel || key in countries {
        assert Counted(r, key, countries, date, begin);
        assert key in [AllLabel] + countries;
      }
    }
    if key in ReportedKeys(data, countries, date, begin) {
      var r :| r in data && Counted(r, key, countries, date, begin);
      assert InWindow(r.submissionDate, date, begin) && (key == AllLabel || r.country == Some(key));
    }
  }

  /**
   * The report has the feature's column, stamps every row with the reference
   * date, holds at most one row per cohort, and holds a row for a cohort
   * exactly when the cohort is "All" or a requested country and some row of
   * it lies in the window.
   */
  lemma ReportKeys(data: seq<Row>, date: string, f: Feature, period: int, countries: seq<string>, begin: string)
    requires IsDateString(date) && WindowStart(date, period) == Success(begin)
    ensures Aggregate(data, date, f, period, countries).Success?
    ensures var report := Aggregate(data, date, f, period, countries).value;
      && report.column == f.column
      && (forall o :: o in report.rows ==> o.submissionDate == date)
      && (forall o1, o2 :: o1 in report.rows && o2 in report.rows && o1.country == o2.country ==> o1 == o2)
      && (forall key :: HasRow(report.rows, key) <==>
            (key == AllLabel || key in countries) &&
            exists r :: r in data && InWindow(r.submissionDate, date, begin) && (key == AllLabel || r.country == Some(key)))
  {
    AggregateMeaning(data, date, f, period, countries);
    ExpectedRowsKeys(data, f, countries, date, begin);
  }

  /** The report holds a row for cohort `key`. */
  predicate HasRow(rows: set<OutputRow>, key: string) {
    exists o :: o in rows && o.country == key
  }

  /** The rows the report should hold: dated, one per cohort, one for each reported cohort. */
  lemma ExpectedRowsKeys(data: seq<Row>, f: Feature, countries: seq<string>, date: string, begin: string)
    ensures forall o :: o in ExpectedRows(data, f, countries, date, begin) ==> o.submissionDate == date
    ensures forall o1, o2 ::
      (o1 in ExpectedRows(data, f, countries, date, begin) && o2 in ExpectedRows(data, f, countries, date, begin) &&
       o1.country == o2.country) ==> o1 == o2
    ensures forall key :: HasRow(ExpectedRows(data, f, countries, date, begin), key) <==>
      (key == AllLabel || key in countries) &&
      exists r :: r in data && InWindow(r.submissionDate, date, begin) && (key == AllLabel || r.country == Some(key))
  {
    var rows := ExpectedRows(data, f, countries, date, begin);
    forall key ensures HasRow(rows, key) <==>
      (key == AllLabel || key in countries) &&
      exists r :: r in data && InWindow(r.submissionDate, date, begin) && (key == AllLabel || r.country == Some(key))
    {
      ExpectedRowKey(data, f, countries, date, begin, key);
      ReportedKeysMeaning(data, countries, date, begin, key);
    }
  }

  /** The report holds a row for a cohort exactly when the cohort is reported. */
  lemma ExpectedRowKey(data: seq<Row>, f: Feature, countries: seq<string>, date: string, begin: string, key: string)
    ensures HasRow(ExpectedRows(data, f, countries, date, begin), key) <==> key in ReportedKeys(data, countries, date, begin)
  {
    if key in ReportedKeys(data, countries, date, begin) {
      var o := OutputRow(date, key, Ratio(|AdoptingClients(data, f, key, countries, date, begin)|,
                                          |ActiveClients(data, key, countries, date, begin)|));
      assert o in ExpectedRows(data, f, countries, date, begin);
    }
  }

  /** The percentage of a cohort with `adopters` of `total` clients, for `adopters <= total`. */
  lemma RatioBounds(adopters: nat, total: nat)
    requires adopters <= total
    ensures 0.0 <= Ratio(adopters, total) <= 100.0
    ensures Ratio(adopters, total) > 0.0 <==> adopters > 0
    ensures Ratio(adopters, total) == 100.0 <==> total > 0 && adopters == total
  {
    if total > 0 {
      var a, t := adopters as real, total as real;
      var q := 100.0 * a / t;
      assert q * t == 100.0 * a;
      if q > 100.0 { assert q * t > 100.0 * t; }
      if q == 100.0 { assert 100.0 * t == 100.0 * a; }
      if q == 0.0 { assert 100.0 * a == 0.0; }
    }
  }

  /**
   * A client adopts in a cohort exactly when one of its rows in that cohort
   * and window has the feature's histogram, that histogram has the bucket,
   * and the bucket's value is positive: a NULL histogram or a missing bucket
   * reads as "off".
   */
  lemma AdopterMeaning(data: seq<Row>, f: Feature, key: string, countries: seq<string>, date: string, begin: string, c: string)
    ensures c in AdoptingClients(data, f, key, countries, date, begin) <==>
      exists r :: r in data && Counted(r, key, countries, date, begin) && r.clientId == Some(c) &&
        Histogram(r, f.probe).Some? && f.bucket in Histogram(r, f.probe).value && Histogram(r, f.probe).value[f.bucket] > 0
  {
    if c in AdoptingClients(data, f, key, countries, date, begin) {
      var r :| r in data && Counted(r, key, countries, date, begin) && IsOn(BucketValue(r, f)) && r.clientId.Some? && r.clientId.value == c;
      assert Histogram(r, f.probe).Some? && f.bucket in Histogram(r, f.probe).value;
    }
  }

  /** Adopters of a cohort are among its active clients. */
  lemma AdoptersAreActive(data: seq<Row>, f: Feature, key: string, countries: seq<string>, date: string, begin: string)
    ensures AdoptingClients(data, f, key, countries, date, begin) <= ActiveClients(data, key, countries, date, begin)
    ensures |AdoptingClients(data, f, key, countries, date, begin)| <= |ActiveClients(data, key, countries, date, begin)|
    ensures |AdoptingClients(data, f, key, countries, date, begin)| == |ActiveClients(data, key, countries, date, begin)| <==>
      AdoptingClients(data, f, key, countries, date, begin) == ActiveClients(data, key, countries, date, begin)
  {
    var adopting, active := AdoptingClients(data, f, key, countries, date, begin), ActiveClients(data, key, countries, date, begin);
    assert |active| == |adopting| + |active - adopting| by {
      assert active == adopting + (active - adopting);
    }
    if |adopting| == |active| {
      assert active - adopting == {};
    }
  }

  /**
   * Every percentage lies between 0 and 100; it is positive exactly when some
   * client of the cohort had the feature on in the window, and 100 exactly
   * when every active client of the cohort did.
   */
  lemma PercentageBounds(data: seq<Row>, date: string, f: Feature, period: int, countries: seq<string>, begin: string)
    requires IsDateString(date) && WindowStart(date, period) == Success(begin)
    ensures Aggregate(data, date, f, period, countries).Success?
    ensures forall o :: o in Aggregate(data, date, f, period, countries).value.rows ==>
      && 0.0 <= o.pct <= 100.0
      && (o.pct > 0.0 <==> AdoptingClients(data, f, o.country, countries, date, begin) != {})
      && (o.pct == 100.0 <==>
            ActiveClients(data, o.country, countries, date, begin) != {} &&
            AdoptingClients(data, f, o.country, countries, date, begin) == ActiveClients(data, o.country, countries, date, begin))
  {
    AggregateMeaning(data, date, f, period, countries);
    forall o | o in ExpectedRows(data, f, countries, date, begin)
      ensures && 0.0 <= o.pct <= 100.0
              && (o.pct > 0.0 <==> AdoptingClients(data, f, o.country, countries, date, begin) != {})
              && (o.pct == 100.0 <==>
                    ActiveClients(data, o.country, countries, date, begin) != {} &&
                    AdoptingClients(data, f, o.country, countries, date, begin) == ActiveClients(data, o.country, countries, date, begin))
    {
      AdoptersAreActive(data, f, o.country, countries, date, begin);
      RatioBounds(|AdoptingClients(data, f, o.country, countries, date, begin)|, |ActiveClients(data, o.country, countries, date, begin)|);
    }
  }

  /** Two inputs with the same rows inside the window give the same report. */
  lemma SameRowsInWindowSameReport(data1: seq<Row>, data2: seq<Row>, date: string, f: Feature, period: int, countries: seq<string>, begin: string)
    requires IsDateString(date) && WindowStart(date, period) == Success(begin)
    requires forall r :: r in data1 && InWindow(r.submissionDate, date, begin) <==> r in data2 && InWindow(r.submissionDate, date, begin)
    ensures Aggregate(data1, date, f, period, countries) == Aggregate(data2, date, f, period, countries)
  {
    AggregateMeaning(data1, date, f, period, countries);
    AggregateMeaning(data2, date, f, period, countries);
    assert ReportedKeys(data1, countries, date, begin) == ReportedKeys(data2, countries, date, begin);
    forall key
      ensures ActiveClients(data1, key, countries, date, begin) == ActiveClients(data2, key, countries, date, begin)
      ensures AdoptingClients(data1, f, key, countries, date, begin) == AdoptingClients(data2, f, key, countries, date, begin)
    {
    }
    assert ExpectedRows(data1, f, countries, date, begin) == ExpectedRows(data2, f, countries, date, begin);
  }

  /** A row outside the window, wherever it stands, changes nothing. */
  lemma OutOfWindowRowIgnored(before: seq<Row>, r: Row, after: seq<Row>, date: string, f: Feature, period: int, countries: seq<string>, begin: string)
    requires IsDateString(date) && WindowStart(date, period) == Success(begin)
    requires !InWindow(r.submissionDate, date, begin)
    ensures Aggregate(before + [r] + after, date, f, period, countries) == Aggregate(before + after, date, f, period, countries)
  {
    SameRowsInWindowSameReport(before + [r] + after, before + after, date, f, period, countries, begin);
  }

  /** Neither the order of the rows nor repeated rows change the report. */
  lemma OrderAndRepetitionIgnored(data1: seq<Row>, data2: seq<Row>, date: string, f: Feature, period: int, countries: seq<string>)
    requires IsDateString(date) && WindowStart(date, period).Success?
    requires forall r :: r in data1 <==> r in data2
    ensures Aggregate(data1, date, f, period, countries) == Aggregate(data2, date, f, period, countries)
  {
    SameRowsInWindowSameReport(data1, data2, date, f, period, countries, WindowStart(date, period).value);
  }

  /**
   * A row of a requested country in the window counts its client twice:
   * once in "All" and once in its country, and the report has a row for both.
   */
  lemma DoubleCounting(data: seq<Row>, date: string, f: Feature, period: int, countries: seq<string>, begin: string, r: Row)
    requires IsDateString(date) && WindowStart(date, period) == Success(begin)
    requires r in data && InWindow(r.submissionDate, date, begin) && Requested(r, countries) && r.clientId.Some?
    ensures r.clientId.value in ActiveClients(data, AllLabel, countries, date, begin)
    ensures r.clientId.value in ActiveClients(data, r.country.value, countries, date, begin)
    ensures Aggregate(data, date, f, period, countries).Success?
    ensures exists o :: o in Aggregate(data, date, f, period, countries).value.rows && o.country == AllLabel
    ensures exists o :: o in Aggregate(data, date, f, period, countries).value.rows && o.country == r.country.value
  {
    var c := r.country.value;
    AggregateMeaning(data, date, f, period, countries);
    assert Counted(r, AllLabel, countries, date, begin) && Counted(r, c, countries, date, begin);
    assert AllLabel in [AllLabel] + countries && c in [AllLabel] + countries;
    var rows := ExpectedRows(data, f, countries, date, begin);
    assert OutputRow(date, AllLabel, Ratio(|AdoptingClients(data, f, AllLabel, countries, date, begin)|,
                                           |ActiveClients(data, AllLabel, countries, date, begin)|)) in rows;
    assert OutputRow(date, c, Ratio(|AdoptingClients(data, f, c, countries, date, begin)|,
                                    |ActiveClients(data, c, countries, date, begin)|)) in rows;
  }

  /** The "All" row does not depend on which countries are requested. */
  lemma AllRowIgnoresCountryList(data: seq<Row>, date: string, f: Feature, period: int, countries1: seq<string>, countries2: seq<string>, begin: string)
    requires IsDateString(date) && WindowStart(date, period) == Success(begin)
    ensures Aggregate(data, date, f, period, countries1).Success? && Aggregate(data, date, f, period, countries2).Success?
    ensures forall o: OutputRow :: o.country == AllLabel ==>
      (o in Aggregate(data, date, f, period, countries1).value.rows <==> o in Aggregate(data, date, f, period, countries2).value.rows)
  {
    AggregateMeaning(data, date, f, period, countries1);
    AggregateMeaning(data, date, f, period, countries2);
    assert ActiveClients(data, AllLabel, countries1, date, begin) == ActiveClients(data, AllLabel, countries2, date, begin);
    assert AdoptingClients(data, f, AllLabel, countries1, date, begin) == AdoptingClients(data, f, AllLabel, countries2, date, begin);
    assert AllLabel in ReportedKeys(data, countries1, date, begin) <==> AllLabel in ReportedKeys(data, countries2, date, begin);
  }
}
