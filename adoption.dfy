/**
 * The weekly-active-user adoption aggregate of `pct_tracking_protection` and
 * `pct_etp`: for a reference date and a trailing window of `period` days, the
 * percentage of distinct clients that had a privacy feature on at least once,
 * for an "All" cohort and for each requested country.
 *
 * The query engine's operators (select, filter, union, groupBy with
 * countDistinct, left join, coalesce) are stated by their relational meaning
 * over finite sequences of rows; row order of the result is not modelled, so
 * the result rows form a set.
 */
module Adoption {
  import opened Wrappers
  import opened Calendar
  import opened DateFormat

  /** What can abort the computation before any query is built. */
  datatype Error =
    | InvalidDate     // `strptime` raises ValueError: the digits name no representable date
    | DateOutOfRange  // OverflowError: `date - period days` leaves the years 1 to 9999

  /** One main-summary row, reduced to the columns the aggregate reads; `None` is SQL NULL. */
  datatype Row = Row(
    submissionDate: string,                              // submission_date_s3
    clientId: Option<string>,                            // client_id
    country: Option<string>,                             // country
    trackingProtectionEnabled: Option<map<int, int>>,    // histogram_parent_tracking_protection_enabled
    cookieBehavior: Option<map<int, int>>)               // histogram_parent_cookie_behavior

  /** The histogram column a feature is read from. */
  datatype Probe = TrackingProtectionEnabled | CookieBehavior

  /** What tells the two report variants apart: histogram, bucket and output column. */
  datatype Feature = Feature(probe: Probe, bucket: int, column: string)

  /** `pct_tracking_protection`: bucket 1 of the tracking-protection histogram. */
  const TrackingProtection := Feature(TrackingProtectionEnabled, 1, "pct_TP")

  /** `pct_etp`: bucket 4 of the cookie-behavior histogram. */
  const ExtendedTrackingProtection := Feature(CookieBehavior, 4, "pct_ETP")

  /** The key of the cohort that holds every row. */
  const AllLabel := "All"

  function Histogram(r: Row, p: Probe): Option<map<int, int>> {
    match p
    case TrackingProtectionEnabled => r.trackingProtectionEnabled
    case CookieBehavior => r.cookieBehavior
  }

  /** `F.col('<histogram>.<bucket>')`: NULL when the histogram is NULL or lacks the bucket. */
  function BucketValue(r: Row, f: Feature): Option<int> {
    var h := Histogram(r, f.probe);
    if h.Some? && f.bucket in h.value then Some(h.value[f.bucket]) else None
  }

  /** `F.col('<feature>_on') > 0`; a NULL comparison keeps no row. */
  predicate IsOn(v: Option<int>) {
    v.Some? && v.value > 0
  }

  /** A row of `data_all`: date, client, the bucket value, and the cohort key in `country`. */
  datatype Labelled = Labelled(submissionDate: string, clientId: Option<string>, on: Option<int>, country: string)

  /** The `select` that both cohorts apply, with the key they put in `country`. */
  function Project(r: Row, f: Feature, key: string): Labelled {
    Labelled(r.submissionDate, r.clientId, BucketValue(r, f), key)
  }

  /** Every row, its country dropped and replaced by the literal "All". */
  function GlobalCohort(data: seq<Row>, f: Feature): seq<Labelled> {
    seq(|data|, i requires 0 <= i < |data| => Project(data[i], f, AllLabel))
  }

  /** `F.col('country').isin(country_list)`: a NULL country is never in the list. */
  predicate Requested(r: Row, countries: seq<string>) {
    r.country.Some? && r.country.value in countries
  }

  /** The rows of requested countries, each under its own country. */
  function CountryCohort(data: seq<Row>, f: Feature, countries: seq<string>): (c: seq<Labelled>)
    ensures forall e :: e in c <==>
      exists i :: 0 <= i < |data| && Requested(data[i], countries) && e == Project(data[i], f, data[i].country.value)
  {
    if data == [] then []
    else
      var rest := CountryCohort(data[1..], f, countries);
      assert forall e :: e in rest <==>
        exists i :: 1 <= i < |data| && Requested(data[i], countries) && e == Project(data[i], f, data[i].country.value) by {
        forall e ensures e in rest ==>
          exists i :: 1 <= i < |data| && Requested(data[i], countries) && e == Project(data[i], f, data[i].country.value)
        {
          if e in rest {
            var j :| 0 <= j < |data[1..]| && Requested(data[1..][j], countries)
              && e == Project(data[1..][j], f, data[1..][j].country.value);
            assert data[1..][j] == data[j + 1];
          }
        }
        forall e ensures (exists i :: 1 <= i < |data| && Requested(data[i], countries) && e == Project(data[i], f, data[i].country.value)) ==> e in rest
        {
          if exists i :: 1 <= i < |data| && Requested(data[i], countries) && e == Project(data[i], f, data[i].country.value) {
            var i :| 1 <= i < |data| && Requested(data[i], countries) && e == Project(data[i], f, data[i].country.value);
            assert data[1..][i - 1] == data[i];
          }
        }
      }
      if Requested(data[0], countries) then [Project(data[0], f, data[0].country.value)] + rest else rest
  }

  /** `data_all`: the global cohort, and the country cohort appended (no deduplication) when `country_list` is non-empty. */
  function Cohort(data: seq<Row>, f: Feature, countries: seq<string>): seq<Labelled> {
    GlobalCohort(data, f) + (if |countries| > 0 then CountryCohort(data, f, countries) else [])
  }

  /** `submission_date_s3 <= date and submission_date_s3 > begin`, compared as strings. */
  predicate InWindow(submissionDate: string, date: string, begin: string) {
    LexAtMost(submissionDate, date) && LexLess(begin, submissionDate)
  }

  /** `filter`: the elements that satisfy `keep`, in their order. */
  function Filter<T(!new)>(s: seq<T>, keep: T -> bool): (r: seq<T>)
    ensures forall x :: x in r <==> x in s && keep(x)
  {
    if s == [] then []
    else if keep(s[0]) then [s[0]] + Filter(s[1..], keep)
    else Filter(s[1..], keep)
  }

  /** The group keys of `groupBy('country')`. */
  function Labels(entries: seq<Labelled>): set<string> {
    set e | e in entries :: e.country
  }

  /** The non-NULL client ids of one group: what `countDistinct('client_id')` counts. */
  function DistinctClients(entries: seq<Labelled>, key: string): set<string> {
    set e | e in entries && e.country == key && e.clientId.Some? :: e.clientId.value
  }

  /** `get_number_of_users`: one count of distinct clients per group key. */
  function NumberOfUsers(entries: seq<Labelled>): map<string, nat> {
    map key | key in Labels(entries) :: |DistinctClients(entries, key)|
  }

  /**
   * `coalesce(100.0 * adopters / total, 0)` after the left join: a group
   * missing from the adopter counts, and a division by zero (NULL in the
   * engine), both come out as 0.
   */
  function Percentage(total: nat, adopters: Option<nat>): real {
    match adopters
    case None => 0.0
    case Some(a) => if total == 0 then 0.0 else 100.0 * a as real / total as real
  }

  /** `WAU.join(WAU_ON, 'country', 'left')` followed by the percentage column. */
  function JoinPercentages(total: map<string, nat>, adopters: map<string, nat>): map<string, real> {
    map key | key in total :: Percentage(total[key], if key in adopters then Some(adopters[key]) else None)
  }

  /** One output row: `| submission_date_s3 | country | pct_<feature> |`. */
  datatype OutputRow = OutputRow(submissionDate: string, country: string, pct: real)

  /** The output table: its percentage column's name and its rows, in no order. */
  datatype Report = Report(column: string, rows: set<OutputRow>)

  /** `(strptime(date) - timedelta(days = period)).strftime('%Y%m%d')`. */
  function WindowStart(date: string, period: int): Result<string, Error>
    requires IsDateString(date)
  {
    match Parse(date)
    case None => Failure(InvalidDate)
    case Some(end) =>
      var begin := AddDays(end, -period);
      if InRange(begin) then Success(Format(begin)) else Failure(DateOutOfRange)
  }

  /** The whole aggregate for one feature: window, cohorts, both counts, join and percentage. */
  function Aggregate(data: seq<Row>, date: string, f: Feature, period: int, countries: seq<string>): Result<Report, Error>
    requires IsDateString(date)
  {
    match WindowStart(date, period)
    case Failure(e) => Failure(e)
    case Success(begin) =>
      var windowed := Filter(Cohort(data, f, countries), (e: Labelled) => InWindow(e.submissionDate, date, begin));
      var total := NumberOfUsers(windowed);
      var adopters := NumberOfUsers(Filter(windowed, (e: Labelled) => IsOn(e.on)));
      var pct := JoinPercentages(total, adopters);
      Success(Report(f.column, set key | key in pct :: OutputRow(date, key, pct[key])))
  }

  /** `pct_tracking_protection(data, date, period=7, country_list=None)`; no list and an empty list both mean no country cohort. */
  function PctTrackingProtection(data: seq<Row>, date: string, period: int := 7, countries: seq<string> := []): (r: Result<Report, Error>)
    requires IsDateString(date)
    ensures r.Success? ==> r.value.column == "pct_TP"
  {
    Aggregate(data, date, TrackingProtection, period, countries)
  }

  /** `pct_etp(data, date, period=7, country_list=None)`; no list and an empty list both mean no country cohort. */
  function PctEtp(data: seq<Row>, date: string, period: int := 7, countries: seq<string> := []): (r: Result<Report, Error>)
    requires IsDateString(date)
    ensures r.Success? ==> r.value.column == "pct_ETP"
  {
    Aggregate(data, date, ExtendedTrackingProtection, period, countries)
  }
}
