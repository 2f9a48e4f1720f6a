/**
 * The worked example of the report's test suite: five main-summary rows of
 * 2018-02-01, four distinct clients, one of which has bucket 4 of the
 * cookie-behavior histogram on.
 */
module Fixture {
  import opened Wrappers
  import opened Calendar
  import opened DateFormat
  import opened Adoption
  import opened AdoptionProperties

  /** The fixture's rows, reduced to the columns the aggregate reads. */
  const Rows: seq<Row> := [
    Row("20180201", Some("client1"), Some("US"), Some(map[0 := 0, 1 := 1]), Some(map[3 := 0, 4 := 1])),
    Row("20180201", Some("client2"), Some("US"), Some(map[0 := 0, 1 := 1]), Some(map[2 := 0, 3 := 1])),
    Row("20180201", Some("client3"), Some("DE"), None, None),
    Row("20180201", Some("client3"), Some("DE"), Some(map[]), Some(map[])),
    Row("20180201", Some("client4"), Some("DE"), None, None)
  ]

  /** Seven days back from 2018-02-01 is 2018-01-25. */
  lemma FixtureWindowStart()
    ensures IsDateString("20180201")
    ensures WindowStart("20180201", 7) == Success("20180125")
  {
    var end := Calendar.Date(2018, 2, 1);
    assert Format(end) == "20180201";
    ParseFormat(end);
    assert Calendar.AddDays(end, -7) == Calendar.Date(2018, 1, 25);
    assert Format(Calendar.Date(2018, 1, 25)) == "20180125";
  }

  /** All five rows lie in the window (2018-01-25, 2018-02-01]. */
  lemma FixtureInWindow(r: Row)
    requires r in Rows
    ensures InWindow(r.submissionDate, "20180201", "20180125")
  {
  }

  /** Every fixture row counts toward "All" and has a client id. */
  lemma FixtureRowCounted(r: Row, countries: seq<string>)
    requires r in Rows
    ensures Counted(r, "All", countries, "20180201", "20180125") && r.clientId.Some?
  {
    FixtureInWindow(r);
  }

  /** Each of the four fixture clients is active in "All". */
  lemma FixtureClientsActive(countries: seq<string>)
    ensures {"client1", "client2", "client3", "client4"} <= ActiveClients(Rows, "All", countries, "20180201", "20180125")
  {
    var active := ActiveClients(Rows, "All", countries, "20180201", "20180125");
    forall r | r in Rows ensures r.clientId.Some? && r.clientId.value in active {
      FixtureRowCounted(r, countries);
    }
    assert Rows[0] in Rows && Rows[1] in Rows && Rows[2] in Rows && Rows[4] in Rows;
  }

  /** No other client is active in "All". */
  lemma FixtureActiveClients(countries: seq<string>)
    ensures ActiveClients(Rows, "All", countries, "20180201", "20180125") <= {"client1", "client2", "client3", "client4"}
  {
    forall x | x in ActiveClients(Rows, "All", countries, "20180201", "20180125")
      ensures x in {"client1", "client2", "client3", "client4"}
    {
      var r :| r in Rows && r.clientId == Some(x);
    }
  }

  /** Four distinct clients are active in the "All" cohort, whatever countries are requested. */
  lemma FixtureActiveAll(countries: seq<string>)
    ensures ActiveClients(Rows, "All", countries, "20180201", "20180125") == {"client1", "client2", "client3", "client4"}
  {
    FixtureClientsActive(countries);
    FixtureActiveClients(countries);
  }

  /** Only client1 has bucket 4 of the cookie-behavior histogram on. */
  lemma FixtureAdoptingAll(countries: seq<string>)
    ensures AdoptingClients(Rows, ExtendedTrackingProtection, "All", countries, "20180201", "20180125") == {"client1"}
  {
    FixtureInWindow(Rows[0]);
    assert Counted(Rows[0], "All", countries, "20180201", "20180125");
    assert IsOn(BucketValue(Rows[0], ExtendedTrackingProtection));
  }

  /** The fixture's client ids are pairwise different, so the four of them count as four. */
  lemma FixtureClientCount()
    ensures |{"client1", "client2", "client3", "client4"}| == 4
  {
    var c1, c2, c3, c4 := "client1", "client2", "client3", "client4";
    assert c1[6] != c2[6] && c1[6] != c3[6] && c1[6] != c4[6];
    assert c2[6] != c3[6] && c2[6] != c4[6] && c3[6] != c4[6];
    assert |{c1}| == 1;
    assert |{c1} + {c2}| == 2;
    assert |{c1, c2} + {c3}| == 3;
    assert |{c1, c2, c3} + {c4}| == 4;
    assert {c1, c2, c3} + {c4} == {c1, c2, c3, c4};
  }

  /** Every fixture row is in the window, so "All" and every requested fixture country are reported. */
  lemma FixtureReportedKeys(countries: seq<string>)
    requires countries == [] || countries == ["DE"]
    ensures ReportedKeys(Rows, countries, "20180201", "20180125") == {"All"} + (set c | c in countries)
  {
    var keys := ReportedKeys(Rows, countries, "20180201", "20180125");
    FixtureInWindow(Rows[0]);
    assert Counted(Rows[0], "All", countries, "20180201", "20180125");
    assert "All" in keys;
    if countries == ["DE"] {
      FixtureInWindow(Rows[2]);
      assert Counted(Rows[2], "DE", countries, "20180201", "20180125");
      assert "DE" in keys;
    }
    forall key | key in keys ensures key in {"All"} + (set c | c in countries) {
      assert key in [AllLabel] + countries;
    }
  }

  /** The "All" cohort of the fixture: one adopter of four clients, 25 percent, whatever countries are requested. */
  lemma FixtureAllRow(countries: seq<string>)
    ensures Ratio(|AdoptingClients(Rows, ExtendedTrackingProtection, "All", countries, "20180201", "20180125")|,
                  |ActiveClients(Rows, "All", countries, "20180201", "20180125")|) == 25.0
  {
    FixtureActiveAll(countries);
    FixtureAdoptingAll(countries);
    FixtureClientCount();
    assert Ratio(1, 4) == 25.0;
  }

  /** A single reported cohort with a known ratio gives exactly one report row. */
  lemma OneRow(data: seq<Row>, f: Feature, countries: seq<string>, date: string, begin: string, k: string, v: real)
    requires ReportedKeys(data, countries, date, begin) == {k}
    requires Ratio(|AdoptingClients(data, f, k, countries, date, begin)|, |ActiveClients(data, k, countries, date, begin)|) == v
    ensures ExpectedRows(data, f, countries, date, begin) == {OutputRow(date, k, v)}
  {
    forall o ensures o in ExpectedRows(data, f, countries, date, begin) <==> o == OutputRow(date, k, v) {
      ExpectedRow(data, f, countries, date, begin, o);
    }
  }

  /** Without a country list only "All" is reported. */
  lemma FixtureReportedKeysWithoutCountryList()
    ensures ReportedKeys(Rows, [], "20180201", "20180125") == {"All"}
  {
    FixtureReportedKeys([]);
    assert (set c: string | c in []) == {};
  }

  /** Without a country list only "All" is reported: one adopter of four clients. */
  lemma FixtureRowsWithoutCountryList()
    ensures ExpectedRows(Rows, ExtendedTrackingProtection, [], "20180201", "20180125") == {OutputRow("20180201", "All", 25.0)}
  {
    FixtureReportedKeysWithoutCountryList();
    FixtureAllRow([]);
    OneRow(Rows, ExtendedTrackingProtection, [], "20180201", "20180125", "All", 25.0);
  }

  /** `pct_etp` on the fixture without a country list: one "All" row at 25 percent. */
  lemma FixtureWithoutCountryList()
    ensures IsDateString("20180201")
    ensures PctEtp(Rows, "20180201") == Success(Report("pct_ETP", {OutputRow("20180201", "All", 25.0)}))
  {
    var date, f := "20180201", ExtendedTrackingProtection;
    assert Aggregate(Rows, date, f, 7, []) == Success(Report("pct_ETP", ExpectedRows(Rows, f, [], date, "20180125"))) by {
      FixtureWindowStart();
      AggregateMeaning(Rows, date, f, 7, []);
    }
    FixtureRowsWithoutCountryList();
  }

  /** No "DE" row has bucket 4 of the cookie-behavior histogram on: a NULL or empty histogram is "off". */
  lemma FixtureNoAdopterInGermany()
    ensures AdoptingClients(Rows, ExtendedTrackingProtection, "DE", ["DE"], "20180201", "20180125") == {}
  {
    var f := ExtendedTrackingProtection;
    assert BucketValue(Rows[2], f) == None && BucketValue(Rows[3], f) == None && BucketValue(Rows[4], f) == None;
    assert forall r :: r in Rows && r.country == Some("DE") ==> r == Rows[2] || r == Rows[3] || r == Rows[4];
  }

  /** With the country list ["DE"], "All" and "DE" are reported. */
  lemma FixtureReportedKeysWithCountryList()
    ensures ReportedKeys(Rows, ["DE"], "20180201", "20180125") == {"All", "DE"}
  {
    FixtureReportedKeys(["DE"]);
    assert (set c | c in ["DE"]) == {"DE"};
  }

  /** The "DE" cohort: no adopter, 0 percent. */
  lemma FixtureGermanyRow()
    ensures Ratio(|AdoptingClients(Rows, ExtendedTrackingProtection, "DE", ["DE"], "20180201", "20180125")|,
                  |ActiveClients(Rows, "DE", ["DE"], "20180201", "20180125")|) == 0.0
  {
    FixtureNoAdopterInGermany();
    NoAdopterNoShare(Rows, ExtendedTrackingProtection, "DE", ["DE"], "20180201", "20180125");
  }

  /** A cohort without adopters reads as 0 percent. */
  lemma NoAdopterNoShare(data: seq<Row>, f: Feature, key: string, countries: seq<string>, date: string, begin: string)
    requires AdoptingClients(data, f, key, countries, date, begin) == {}
    ensures Ratio(|AdoptingClients(data, f, key, countries, date, begin)|, |ActiveClients(data, key, countries, date, begin)|) == 0.0
  {
  }

  /** Two reported cohorts with known ratios give exactly two report rows. */
  lemma TwoRows(data: seq<Row>, f: Feature, countries: seq<string>, date: string, begin: string,
                k1: string, v1: real, k2: string, v2: real)
    requires ReportedKeys(data, countries, date, begin) == {k1, k2}
    requires Ratio(|AdoptingClients(data, f, k1, countries, date, begin)|, |ActiveClients(data, k1, countries, date, begin)|) == v1
    requires Ratio(|AdoptingClients(data, f, k2, countries, date, begin)|, |ActiveClients(data, k2, countries, date, begin)|) == v2
    ensures ExpectedRows(data, f, countries, date, begin) == {OutputRow(date, k1, v1), OutputRow(date, k2, v2)}
  {
    forall o ensures o in ExpectedRows(data, f, countries, date, begin) <==>
      o == OutputRow(date, k1, v1) || o == OutputRow(date, k2, v2)
    {
      ExpectedRow(data, f, countries, date, begin, o);
    }
  }

  /** With the country list ["DE"]: "All" and "DE" are reported, at 25 and 0 percent. */
  lemma FixtureRowsWithCountryList()
    ensures ExpectedRows(Rows, ExtendedTrackingProtection, ["DE"], "20180201", "20180125") ==
      {OutputRow("20180201", "All", 25.0), OutputRow("20180201", "DE", 0.0)}
  {
    FixtureReportedKeysWithCountryList();
    FixtureAllRow(["DE"]);
    FixtureGermanyRow();
    TwoRows(Rows, ExtendedTrackingProtection, ["DE"], "20180201", "20180125", "All", 25.0, "DE", 0.0);
  }

  /** `pct_etp` on the fixture with the country list ["DE"]: "All" at 25 percent and "DE" at 0. */
  lemma FixtureWithCountryList()
    ensures IsDateString("20180201")
    ensures PctEtp(Rows, "20180201", countries := ["DE"]) ==
      Success(Report("pct_ETP", {OutputRow("20180201", "All", 25.0), OutputRow("20180201", "DE", 0.0)}))
  {
    var date, f := "20180201", ExtendedTrackingProtection;
    assert Aggregate(Rows, date, f, 7, ["DE"]) == Success(Report("pct_ETP", ExpectedRows(Rows, f, ["DE"], date, "20180125"))) by {
      FixtureWindowStart();
      AggregateMeaning(Rows, date, f, 7, ["DE"]);
    }
    FixtureRowsWithCountryList();
  }
}
