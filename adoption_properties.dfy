/**
 * What the adoption aggregate computes, stated directly over the input rows,
 * and the properties of the report that follow: its key set, its bounds,
 * the trailing window, and the cohorts' double counting.
 */
module AdoptionProperties {
  import opened Wrappers
  import opened DateFormat
  import opened Adoption

  /** Row `r` belongs to the cohort reported under `key`. */
  predicate InCohort(r: Row, key: string, countries: seq<string>) {
    key == AllLabel || (key in countries && r.country == Some(key))
  }

  /** Row `r` counts toward the cohort `key`: it belongs to it and lies in the window. */
  predicate Counted(r: Row, key: string, countries: seq<string>, date: string, begin: string) {
    InCohort(r, key, countries) && InWindow(r.submissionDate, date, begin)
  }

  /** The distinct clients of cohort `key` in the window. */
  function ActiveClients(data: seq<Row>, key: string, countries: seq<string>, date: string, begin: string): set<string> {
    set r | r in data && Counted(r, key, countries, date, begin) && r.clientId.Some? :: r.clientId.value
  }

  /** The distinct clients of cohort `key` in the window with the feature's bucket on in some row. */
  function AdoptingClients(data: seq<Row>, f: Feature, key: string, countries: seq<string>, date: string, begin: string): set<string> {
    set r | r in data && Counted(r, key, countries, date, begin) && IsOn(BucketValue(r, f)) && r.clientId.Some? :: r.clientId.value
  }

  /** The cohorts that have at least one row in the window: "All" and requested countries only. */
  function ReportedKeys(data: seq<Row>, countries: seq<string>, date: string, begin: string): set<string> {
    set key | key in [AllLabel] + countries && (exists r :: r in data && Counted(r, key, countries, date, begin))
  }

  /** The adoption percentage, 0 for an empty cohort. */
  function Ratio(adopters: nat, total: nat): real {
    if total == 0 then 0.0 else 100.0 * adopters as real / total as real
  }

  /** The left join and the coalesce give the ratio, a group without adopters reading as 0 adopters. */
  lemma CoalescedPercentage(total: nat, adopters: Option<nat>, n: nat)
    requires adopters == Some(n) || (adopters == None && n == 0)
    ensures Percentage(total, adopters) == Ratio(n, total)
  {
  }

  /** The report rows, one per reported cohort. */
  function ExpectedRows(data: seq<Row>, f: Feature, countries: seq<string>, date: string, begin: string): set<OutputRow> {
    set key | key in ReportedKeys(data, countries, date, begin) ::
      OutputRow(date, key, Ratio(|AdoptingClients(data, f, key, countries, date, begin)|,
                                 |ActiveClients(data, key, countries, date, begin)|))
  }

  /** A report row is the row of a reported cohort, carrying that cohort's ratio. */
  lemma ExpectedRow(data: seq<Row>, f: Feature, countries: seq<string>, date: string, begin: string, o: OutputRow)
    ensures o in ExpectedRows(data, f, countries, date, begin) <==>
      && o.country in ReportedKeys(data, countries, date, begin)
      && o == OutputRow(date, o.country, Ratio(|AdoptingClients(data, f, o.country, countries, date, begin)|,
                                               |ActiveClients(data, o.country, countries, date, begin)|))
  {
  }

  /** `data_all` holds exactly the projections of rows under a cohort key they belong to. */
  lemma CohortMembership(data: seq<Row>, f: Feature, countries: seq<string>, e: Labelled)
    ensures e in Cohort(data, f, countries) <==>
      exists r :: r in data && InCohort(r, e.country, countries) && e == Project(r, f, e.country)
  {
    var global := GlobalCohort(data, f);
    var local := if |countries| > 0 then CountryCohort(data, f, countries) else [];
    assert Cohort(data, f, countries) == global + local;
    if e in global {
      var i :| 0 <= i < |global| && global[i] == e;
      assert InCohort(data[i], e.country, countries);
    } else if e in local {
      var i :| 0 <= i < |data| && Requested(data[i], countries) && e == Project(data[i], f, data[i].country.value);
      assert InCohort(data[i], e.country, countries);
    }
    if exists r :: r in data && InCohort(r, e.country, countries) && e == Project(r, f, e.country) {
      var r :| r in data && InCohort(r, e.country, countries) && e == Project(r, f, e.country);
      var i :| 0 <= i < |data| && data[i] == r;
      if e.country == AllLabel {
        assert global[i] == e;
      } else {
        assert Requested(data[i], countries) && e == Project(data[i], f, data[i].country.value);
        assert e in local;
      }
    }
  }

  /** The windowed cohort, characterised by the rows it comes from. */
  lemma WindowedMembership(data: seq<Row>, f: Feature, countries: seq<string>, date: string, begin: string, e: Labelled)
    ensures e in Filter(Cohort(data, f, countries), (e: Labelled) => InWindow(e.submissionDate, date, begin)) <==>
      exists r :: r in data && Counted(r, e.country, countries, date, begin) && e == Project(r, f, e.country)
  {
    CohortMembership(data, f, countries, e);
  }

  /** The pipeline's group keys and per-group distinct clients agree with the definitions above. */
  lemma GroupsMatch(data: seq<Row>, f: Feature, countries: seq<string>, date: string, begin: string)
    ensures var windowed := Filter(Cohort(data, f, countries), (e: Labelled) => InWindow(e.submissionDate, date, begin));
            var adopted := Filter(windowed, (e: Labelled) => IsOn(e.on));
            && Labels(windowed) == ReportedKeys(data, countries, date, begin)
            && Labels(adopted) <= Labels(windowed)
            && (forall key :: DistinctClients(windowed, key) == ActiveClients(data, key, countries, date, begin))
            && (forall key :: DistinctClients(adopted, key) == AdoptingClients(data, f, key, countries, date, begin))
  {
    var windowed := Filter(Cohort(data, f, countries), (e: Labelled) => InWindow(e.submissionDate, date, begin));
    var adopted := Filter(windowed, (e: Labelled) => IsOn(e.on));
    forall key ensures key in Labels(windowed) <==> key in ReportedKeys(data, countries, date, begin) {
      if key in Labels(windowed) {
        var e :| e in windowed && e.country == key;
        WindowedMembership(data, f, countries, date, begin, e);
      }
      if key in ReportedKeys(data, countries, date, begin) {
        var r :| r in data && Counted(r, key, countries, date, begin);
        WindowedMembership(data, f, countries, date, begin, Project(r, f, key));
      }
    }
    forall key ensures DistinctClients(windowed, key) == ActiveClients(data, key, countries, date, begin) {
      forall x ensures x in DistinctClients(windowed, key) <==> x in ActiveClients(data, key, countries, date, begin) {
        if x in DistinctClients(windowed, key) {
          var e :| e in windowed && e.country == key && e.clientId == Some(x);
          WindowedMembership(data, f, countries, date, begin, e);
        }
        if x in ActiveClients(data, key, countries, date, begin) {
          var r :| r in data && Counted(r, key, countries, date, begin) && r.clientId == Some(x);
          WindowedMembership(data, f, countries, date, begin, Project(r, f, key));
        }
      }
    }
    forall key ensures DistinctClients(adopted, key) == AdoptingClients(data, f, key, countries, date, begin) {
      forall x ensures x in DistinctClients(adopted, key) <==> x in AdoptingClients(data, f, key, countries, date, begin) {
        if x in DistinctClients(adopted, key) {
          var e :| e in adopted && e.country == key && e.clientId == Some(x);
          WindowedMembership(data, f, countries, date, begin, e);
        }
        if x in AdoptingClients(data, f, key, countries, date, begin) {
          var r :| r in data && Counted(r, key, countries, date, begin) && IsOn(BucketValue(r, f)) && r.clientId == Some(x);
          WindowedMembership(data, f, countries, date, begin, Project(r, f, key));
        }
      }
    }
  }

  /** After the join, every reported cohort carries the ratio of its adopting to its active clients. */
  lemma JoinMatches(data: seq<Row>, f: Feature, countries: seq<string>, date: string, begin: string)
    ensures var windowed := Filter(Cohort(data, f, countries), (e: Labelled) => InWindow(e.submissionDate, date, begin));
            var adopted := Filter(windowed, (e: Labelled) => IsOn(e.on));
            var pct := JoinPercentages(NumberOfUsers(windowed), NumberOfUsers(adopted));
            && pct.Keys == ReportedKeys(data, countries, date, begin)
            && forall key :: key in pct ==>
                 pct[key] == Ratio(|AdoptingClients(data, f, key, countries, date, begin)|,
                                   |ActiveClients(data, key, countries, date, begin)|)
  {
    var windowed := Filter(Cohort(data, f, countries), (e: Labelled) => InWindow(e.submissionDate, date, begin));
    var adopted := Filter(windowed, (e: Labelled) => IsOn(e.on));
    var total := NumberOfUsers(windowed);
    var adopters := NumberOfUsers(adopted);
    var pct := JoinPercentages(total, adopters);
    GroupsMatch(data, f, countries, date, begin);
    forall key | key in pct
      ensures pct[key] == Ratio(|AdoptingClients(data, f, key, countries, date, begin)|,
                                |ActiveClients(data, key, countries, date, begin)|)
    {
      var t := |ActiveClients(data, key, countries, date, begin)|;
      var a := |AdoptingClients(data, f, key, countries, date, begin)|;
      assert total[key] == t;
      if key in adopters {
        assert adopters[key] == a;
        assert pct[key] == Percentage(t, Some(a));
        CoalescedPercentage(t, Some(a), a);
      } else {
        assert DistinctClients(adopted, key) == {};
        assert pct[key] == Percentage(t, None);
        CoalescedPercentage(t, None, a);
      }
    }
  }

  /**
   * The aggregate fails exactly when the window start cannot be computed, and
   * otherwise reports, for each cohort with rows in the window, the share of
   * its distinct clients that had the feature on.
   */
  lemma AggregateMeaning(data: seq<Row>, date: string, f: Feature, period: int, countries: seq<string>)
    requires IsDateString(date)
    ensures WindowStart(date, period).Failure? ==>
      Aggregate(data, date, f, period, countries) == Failure(WindowStart(date, period).error)
    ensures WindowStart(date, period).Success? ==>
      Aggregate(data, date, f, period, countries) ==
        Success(Report(f.column, ExpectedRows(data, f, countries, date, WindowStart(date, period).value)))
  {
    if WindowStart(date, period).Success? {
      var begin := WindowStart(date, period).value;
      var windowed := Filter(Cohort(data, f, countries), (e: Labelled) => InWindow(e.submissionDate, date, begin));
      var adopted := Filter(windowed, (e: Labelled) => IsOn(e.on));
      var pct := JoinPercentages(NumberOfUsers(windowed), NumberOfUsers(adopted));
      JoinMatches(data, f, countries, date, begin);
      var rows := set key | key in pct :: OutputRow(date, key, pct[key]);
      assert rows == ExpectedRows(data, f, countries, date, begin);
    }
  }
}
