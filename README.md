# Weekly-active-user feature adoption

This project models the feature-adoption aggregate of the Firefox usage report,
`pct_tracking_protection` and `pct_etp`. Given main-summary rows, a reference
date `yyyyMMdd`, a `period` in days and an optional country list, the report
gives, per cohort, the percentage of distinct clients active in the trailing
window that had a privacy feature on at least once:

- the "All" cohort holds every row, its country overwritten with "All";
- each requested country's cohort holds that country's rows, appended
  without deduplication, so such a client counts in both cohorts;
- the window is `begin < submission_date_s3 <= date`, compared as strings,
  where `begin` is the reference date minus `period` calendar days;
- a client is an adopter when the feature's histogram bucket is present and
  positive in some row; tracking protection reads bucket 1 of
  `histogram_parent_tracking_protection_enabled` into `pct_TP`, extended
  tracking protection reads bucket 4 of `histogram_parent_cookie_behavior`
  into `pct_ETP`;
- the two distinct-client counts are left-joined per cohort, and the
  percentage `100 * adopters / total` is coalesced to 0.

The two report functions differ only in the histogram, bucket and column. They
are one function, `Adoption.Aggregate`, parameterised by a `Feature`.

Modules:

- `Wrappers`: `Option` and `Result`.
- `Calendar`: the proleptic Gregorian calendar of Python's `datetime`. It
  gives day ordinals (`toordinal`) and day-by-day date arithmetic in the
  years 1 to 9999.
- `DateFormat`: the eight-digit `%Y%m%d` form, its parser, and the string
  order the query engine uses. That order is proved to be chronological
  order.
- `Adoption`: rows, the two cohorts, the window filter,
  `get_number_of_users`, the left join with coalesce, the window start, and
  the two report functions.
- `AdoptionProperties`: the report stated directly over the input rows, as
  the sets of active and adopting clients per cohort. `AggregateMeaning`
  proves that the query pipeline computes exactly that.
- `ReportProperties`: window meaning, key set, bounds, irrelevance of
  out-of-window rows, of row order and of repetition, double counting, and
  independence of the "All" row from the country list.
- `Fixture`: the five-row example of the test suite, with both expected
  reports proved.

## Model

| member | source | states |
|---|---|---|
| Adoption.PctTrackingProtection | usage_report/utils/trackingprotection.py:7-63 | `pct_tracking_protection` is the aggregate of bucket 1 of the tracking-protection histogram; a report it produces has the column `pct_TP` |
| Adoption.PctEtp | usage_report/utils/trackingprotection.py:65-121 | `pct_etp` is the aggregate of bucket 4 of the cookie-behavior histogram; a report it produces has the column `pct_ETP` |
| Adoption.Aggregate | usage_report/utils/trackingprotection.py:23-62 | the one generic function behind both variants (lines 23-62 and 81-120); no contract of its own, `AdoptionProperties.AggregateMeaning` states the report it computes |
| Adoption.WindowStart | usage_report/utils/trackingprotection.py:23-25 | no contract of its own; `ReportProperties.WindowStartMeaning` states the start and both failures |
| Adoption.GlobalCohort | usage_report/utils/trackingprotection.py:27-31 | no contract of its own; `AdoptionProperties.CohortMembership` states that every row enters under "All" |
| Adoption.Cohort | usage_report/utils/trackingprotection.py:27-40 | no contract of its own; `AdoptionProperties.CohortMembership` states its entries |
| Adoption.BucketValue | usage_report/utils/trackingprotection.py:30 | the bucket column, NULL for a NULL histogram or a missing bucket (also line 38); no contract of its own, `ReportProperties.AdopterMeaning` states its effect |
| Adoption.IsOn | usage_report/utils/trackingprotection.py:55 | no contract of its own; `ReportProperties.AdopterMeaning` states which rows pass `> 0` |
| Adoption.InWindow | usage_report/utils/trackingprotection.py:47-48 | no contract of its own; `ReportProperties.WindowIsTrailingDays` states its meaning in days |
| Adoption.NumberOfUsers | usage_report/utils/trackingprotection.py:42-44 | no contract of its own; `AdoptionProperties.GroupsMatch` states its keys and counts |
| Adoption.Percentage | usage_report/utils/trackingprotection.py:59-62 | no contract of its own; `AdoptionProperties.CoalescedPercentage` states it is the ratio with 0 for a missing adopter count or a zero total |
| Adoption.JoinPercentages | usage_report/utils/trackingprotection.py:58-62 | no contract of its own; `AdoptionProperties.JoinMatches` states its keys and values |
| DateFormat.Parse | usage_report/utils/trackingprotection.py:23 | a date it returns lies in the years 1 to 9999; `DateFormat.FormatParse` and `DateFormat.ParseFormat` state that it inverts `Format` |
| DateFormat.Format | usage_report/utils/trackingprotection.py:25 | its result is eight ASCII digits; `DateFormat.ParseFormat` and `DateFormat.FormatOrder` state the round trip and the order |
| DateFormat.LexLess | usage_report/utils/trackingprotection.py:47-48 | no contract of its own; `DateFormat.FormatOrder` states that it is chronological order on formatted dates |
| DateFormat.LexAtMost | usage_report/utils/trackingprotection.py:47-48 | no contract of its own; `ReportProperties.WindowIsTrailingDays` states the window it bounds |
| Calendar.AddDays | usage_report/utils/trackingprotection.py:24 | its result is a valid date; `Calendar.AddDaysOrdinal` states it moves the ordinal by exactly `n` |
| AdoptionProperties.AggregateMeaning | usage_report/utils/trackingprotection.py:23-62 | a failing window start aborts the whole computation; otherwise the report has one row per reported cohort, dated with the reference date. Its percentage is 100 × distinct adopting clients / distinct active clients of that cohort in the window, with 0 for no adopters |
| AdoptionProperties.CohortMembership | usage_report/utils/trackingprotection.py:27-40 | an entry of `data_all` is exactly a row projected under "All", or a row whose country is requested, projected under that country, and the second kind only when the list is non-empty |
| Adoption.CountryCohort | usage_report/utils/trackingprotection.py:33-39 | the country cohort holds exactly the rows whose non-NULL country is in the list, each projected under its own country |
| Adoption.Filter | usage_report/utils/trackingprotection.py:47-55 | a filter keeps exactly the elements that satisfy its condition |
| AdoptionProperties.WindowedMembership | usage_report/utils/trackingprotection.py:46-50 | the windowed cohort holds exactly the cohort entries whose date satisfies `begin < d <= date` |
| AdoptionProperties.GroupsMatch | usage_report/utils/trackingprotection.py:42-56 | `get_number_of_users` has a group exactly for each reported cohort; the total counts its distinct active clients, and the adopter count its distinct adopting clients |
| AdoptionProperties.CoalescedPercentage | usage_report/utils/trackingprotection.py:58-62 | the left join's missing adopter count and a zero total both coalesce to a percentage of 0; otherwise the percentage is the ratio |
| AdoptionProperties.JoinMatches | usage_report/utils/trackingprotection.py:58-62 | the joined table has exactly the reported cohorts as keys, each carrying its ratio |
| AdoptionProperties.ExpectedRow | usage_report/utils/trackingprotection.py:58-62 | the rows `AggregateMeaning` equates with the report are exactly the rows of reported cohorts, stamped with the reference date and carrying that cohort's ratio |
| ReportProperties.WindowStartMeaning | usage_report/utils/trackingprotection.py:23-25 | the window start is the reference date's ordinal minus `period`, in eight-digit form. An unparseable date fails with InvalidDate; a start outside years 1 to 9999 fails with DateOutOfRange |
| ReportProperties.WindowIsTrailingDays | usage_report/utils/trackingprotection.py:46-50 | for a well-formed row date, the string window test holds exactly when the row's day is one of the `period` days ending on the reference date |
| ReportProperties.ReportedKeysMeaning | usage_report/utils/trackingprotection.py:42-44 | a cohort is reported exactly when it is "All" or a requested country and has some row in the window |
| ReportProperties.ReportKeys | usage_report/utils/trackingprotection.py:58-62 | the report has the feature's column, every row dated with the reference date, at most one row per cohort. It has a row for a cohort exactly when that cohort is "All" or requested and has a row in the window, so a requested country without rows in the window gets no row |
| ReportProperties.ExpectedRowsKeys | usage_report/utils/trackingprotection.py:60-62 | the expected rows are dated, unique per cohort, and present exactly for "All" or requested cohorts with a row in the window |
| ReportProperties.ExpectedRowKey | usage_report/utils/trackingprotection.py:58-62 | there is a row for a cohort exactly when the cohort is reported |
| ReportProperties.RatioBounds | usage_report/utils/trackingprotection.py:59 | with adopters ≤ total, the ratio lies in [0, 100]. It is positive exactly when adopters > 0, and 100 exactly when every active client adopts |
| ReportProperties.AdopterMeaning | usage_report/utils/trackingprotection.py:51-55 | a client adopts exactly when one of its in-window rows of the cohort has the histogram, the bucket, and a positive value there. A NULL histogram or a missing bucket means "off" |
| ReportProperties.AdoptersAreActive | usage_report/utils/trackingprotection.py:51-55 | the adopters of a cohort are a subset of its active clients, so there are at most as many of them |
| ReportProperties.PercentageBounds | usage_report/utils/trackingprotection.py:58-62 | every percentage lies in [0, 100]. It is positive exactly when the cohort has an adopter, and 100 exactly when all of its active clients adopt |
| ReportProperties.SameRowsInWindowSameReport | usage_report/utils/trackingprotection.py:46-56 | two inputs with the same rows inside the window give the same report |
| ReportProperties.OutOfWindowRowIgnored | usage_report/utils/trackingprotection.py:46-56 | inserting a row outside the window anywhere in the input does not change the report |
| ReportProperties.OrderAndRepetitionIgnored | usage_report/utils/trackingprotection.py:42-44 | the report depends only on the set of input rows, not on their order or repetition |
| ReportProperties.DoubleCounting | usage_report/utils/trackingprotection.py:33-40 | an in-window row of a requested country counts its client both in "All" and in its country, and both cohorts get a row |
| ReportProperties.AllRowIgnoresCountryList | usage_report/utils/trackingprotection.py:27-31 | the "All" row is the same whichever countries are requested |
| Calendar.AddDaysOrdinal | usage_report/utils/trackingprotection.py:24 | subtracting a `timedelta` of `n` days moves the day ordinal by exactly `n` |
| Calendar.SuccOrdinal | usage_report/utils/trackingprotection.py:24 | the next day has the next ordinal |
| Calendar.PredOrdinal | usage_report/utils/trackingprotection.py:24 | the previous day has the previous ordinal |
| Calendar.OrdinalOrder | usage_report/utils/trackingprotection.py:24 | calendar order is ordinal order, and equal ordinals mean equal dates |
| Calendar.InRangeByOrdinal | usage_report/utils/trackingprotection.py:24 | a date lies in the years 1 to 9999 exactly when its ordinal is between 1 and 3652059 |
| Calendar.YearLength | usage_report/utils/trackingprotection.py:24 | the days before year y + 1 are the days before y plus the length of y |
| DateFormat.ParseFormat | usage_report/utils/trackingprotection.py:23-25 | formatting a date with `%Y%m%d` and parsing it again gives the date back |
| DateFormat.FormatParse | usage_report/utils/trackingprotection.py:23-25 | an eight-digit string that parses to a date is that date's formatted form |
| DateFormat.FormatOrder | usage_report/utils/trackingprotection.py:47-48 | formatted dates compare as strings exactly as their days compare |
| DateFormat.FormatInjective | usage_report/utils/trackingprotection.py:47-48 | two formatted dates are equal strings exactly when they are the same day |
| DateFormat.LexDigits | usage_report/utils/trackingprotection.py:47-48 | zero-padded numbers of one width compare as strings exactly as numbers |
| DateFormat.ValueOfDigits | usage_report/utils/trackingprotection.py:25 | reading back a zero-padded number gives that number |
| DateFormat.DigitsOfValue | usage_report/utils/trackingprotection.py:23 | a digit string is the zero-padded form of its value |
| Fixture.FixtureWindowStart | tests/test_process_output_pt2.py:48-50 | the 7-day window ending 20180201, the default `period`, starts after 20180125 |
| Fixture.FixtureActiveAll | tests/test_process_output_pt2.py:31-40 | the fixture's "All" cohort has the four clients client1 to client4; client3's two rows count once |
| Fixture.FixtureAdoptingAll | tests/test_process_output_pt2.py:31-40 | only client1 has bucket 4 of the cookie-behavior histogram on |
| Fixture.FixtureNoAdopterInGermany | tests/test_process_output_pt2.py:35-40 | no DE row has bucket 4 on: a NULL or an empty histogram is "off" |
| Fixture.FixtureWithoutCountryList | tests/test_process_output_pt2.py:48-60 | `pct_etp` on the fixture, called with the default period and no country list, gives exactly the row ("20180201", "All", 25.0) |
| Fixture.FixtureWithCountryList | tests/test_process_output_pt2.py:63-81 | `pct_etp` on the fixture, with the list ["DE"], gives exactly ("20180201", "All", 25.0) and ("20180201", "DE", 0.0) |

## Left out

- The query engine itself (the Spark session, DataFrame construction, the
  `pyspark.sql.functions` API, and the way a plan is distributed and
  executed). Each operator is modelled by its relational meaning over a
  sequence of rows.
- Columns the aggregate never reads (addons, os, locale, subsession length
  and the rest). A `Row` holds only the five columns the aggregate reads.
- Floating point. `100.0 * x / y` is modelled as an exact `real`, so
  rounding in the engine's double arithmetic is not captured.
- Row order of the result. The engine guarantees none, so the report's rows
  are a set.
- Adoption.WindowStart: requires the reference date to be eight ASCII
  digits. `strptime` with `%Y%m%d` also accepts other forms, such as
  shorter fields (`"201821"`), a space-padded day (`"201802 1"`) or
  non-ASCII digits in the year, and raises ValueError on the rest; none of
  these paths is modelled. An eight-digit ASCII string that names no date
  fails with InvalidDate.
- DateFormat.Format: always pads the year to four digits. The platform's
  `strftime` may print years below 1000 without padding. Such window
  starts are therefore not modelled as written.
- `period` is an integer. The source passes it to `timedelta`, which would
  also accept a fractional number of days; that is not modelled.
- A NULL `submission_date_s3` is not modelled: a row's date is a string.
  The engine's comparison with NULL would drop the row.
- The source's reference date and window bounds are compared with the
  row's date as strings. Rows whose date is not in eight-digit form are
  still compared as strings; `ReportProperties.WindowIsTrailingDays`
  states the day meaning only for well-formed row dates.
- Behaviour of the code on inputs one might expect to fail or to give a
  zero row:
  - a requested country with no row in the window gets no report row (not
    a 0 row), as `ReportProperties.ReportKeys` states;
  - there is no error for a non-positive `period`. The code performs no
    such check: a period of 0 or less gives an empty window and an empty
    report, and a window start outside the years 1 to 9999 fails with
    DateOutOfRange, as `timedelta` arithmetic does;
  - a missing column cannot arise, because a `Row` always has the columns
    the aggregate reads.
