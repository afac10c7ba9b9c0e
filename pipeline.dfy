/**
 * The two entry points that run the algorithm: `mparser(user_input, raw_data)`
 * and the POST branch of the Flask route `parser()`, which inlines the same
 * steps. The mileage chart that both read from `mileage-chart.csv` is a
 * parameter here.
 */
module Pipeline {
  import opened Wrappers
  import opened Strings
  import opened DateTime
  import opened Extractor
  import opened Records
  import opened Mileage
  import opened MileageFacts

  /** What `mparser` returns: the raw data frame, or the final report. */
  datatype Output = RawEntries(entries: seq<Entry>) | Report(trips: seq<Trip>)

  /** Clean, filter, sort, then derive the trips. */
  function ReportFromEntries(entries: seq<Entry>, chart: Chart): Result<seq<Trip>, Failure>
  {
    match Prepare(entries)
    case Err(e) => Err(e)
    case Ok(rows) => DeriveTrips(rows, chart)
  }

  /** The result of `mparser(user_input, raw_data)` with the chart given. */
  function MparserResult(userInput: string, rawData: bool, chart: Chart): Result<Output, Failure>
  {
    var entries := Extract(userInput);
    if rawData then Ok(RawEntries(entries))
    else
      match ReportFromEntries(entries, chart)
      case Err(e) => Err(e)
      case Ok(trips) => Ok(Report(trips))
  }

  /** The cleaning and mileage part shared by both entry points. */
  method BuildReport(entries: seq<Entry>, chart: Chart) returns (r: Result<seq<Trip>, Failure>)
    ensures r == ReportFromEntries(entries, chart)
  {
    var prepared := Prepare(entries);
    if prepared.Err? {
      return Err(prepared.error);
    }
    r := DeriveTripsLoop(prepared.value, chart);
  }

  /** `mparser`: the extraction loop, then either the raw entries or the report. */
  method Mparser(userInput: string, rawData: bool, chart: Chart) returns (r: Result<Output, Failure>)
    ensures r == MparserResult(userInput, rawData, chart)
    ensures rawData ==> r == Ok(RawEntries(Extract(userInput)))
  {
    var entries := ExtractEntries(userInput);
    if rawData {
      return Ok(RawEntries(entries));
    }
    var report := BuildReport(entries, chart);
    if report.Err? {
      return Err(report.error);
    }
    return Ok(Report(report.value));
  }

  /** The POST branch of the Flask route, up to the finished report. */
  method Route(userInput: string, chart: Chart) returns (r: Result<seq<Trip>, Failure>)
    ensures r == ReportFromEntries(Extract(userInput), chart)
  {
    var entries := ExtractEntries(userInput);
    r := BuildReport(entries, chart);
  }

  /**
   * Every trip of a report joins two consecutive check-ins of one date in the
   * cleaned frame, which is sorted by check-in and holds no "0:00" row.
   */
  lemma ReportTripsAreLegs(entries: seq<Entry>, chart: Chart)
    requires ReportFromEntries(entries, chart).Ok?
    ensures Prepare(entries).Ok?
    ensures SortedByCheckIn(Prepare(entries).value)
    ensures forall t :: t in ReportFromEntries(entries, chart).value ==> IsReportedLeg(t, Prepare(entries).value, chart)
  {
    DerivedTripsAreLegs(Prepare(entries).value, chart);
  }

  /**
   * Two rows of the frame on the trip's date, at its two branches, neither with
   * duration "0:00", the first checked in no later than the second.
   */
  predicate HasEndpoints(t: Trip, rows: seq<Record>)
  {
    exists a, b :: (
      && a in rows && b in rows
      && a.branch == t.fromBranch && b.branch == t.toBranch
      && a.dateIn == t.date && b.dateIn == t.date
      && a.duration != ZeroDuration && b.duration != ZeroDuration
      && StampLe(a.stampIn, b.stampIn))
  }

  lemma LegHasEndpoints(rows: seq<Record>, chart: Chart, t: Trip)
    requires SortedByCheckIn(rows)
    requires forall k :: 0 <= k < |rows| ==> rows[k].duration != ZeroDuration
    requires IsReportedLeg(t, rows, chart)
    ensures HasEndpoints(t, rows)
  {
    var sel := Select(rows, t.date);
    SelectKeepsOrder(rows, t.date);
    var x :| 1 <= x < |sel| && sel[x - 1].branch == t.fromBranch && sel[x].branch == t.toBranch;
    var a, b := sel[x - 1], sel[x];
    assert a in sel && b in sel;
    assert a in rows && b in rows;
  }

  /** A row with duration "0:00" is never the start or the end of a reported trip. */
  lemma TripEndpointsAreKeptRows(entries: seq<Entry>, chart: Chart)
    requires ReportFromEntries(entries, chart).Ok?
    ensures Prepare(entries).Ok?
    ensures forall t :: t in ReportFromEntries(entries, chart).value ==> HasEndpoints(t, Prepare(entries).value)
  {
    ReportTripsAreLegs(entries, chart);
    forall t | t in ReportFromEntries(entries, chart).value ensures HasEndpoints(t, Prepare(entries).value) {
      LegHasEndpoints(Prepare(entries).value, chart, t);
    }
  }

  /**
   * The report holds, for every date, exactly the trips of that date's walk over
   * the cleaned frame, whole and in walk order; a date without rows has none.
   */
  lemma ReportHoldsEveryWalk(entries: seq<Entry>, chart: Chart)
    requires ReportFromEntries(entries, chart).Ok?
    ensures Prepare(entries).Ok?
    ensures forall d :: (TripsFromPairs(d, Pairs(Select(Prepare(entries).value, d)), chart).Ok?
      && Only(ReportFromEntries(entries, chart).value, d)
        == TripsFromPairs(d, Pairs(Select(Prepare(entries).value, d)), chart).value)
  {
    DeriveTripsPerDate(Prepare(entries).value, chart);
  }

  /**
   * The report fails exactly when some entry has a malformed date or time, and
   * then with that error, or when some date of the cleaned frame has two
   * consecutive rows of different names whose distance cannot be looked up.
   */
  lemma ReportFailsIff(entries: seq<Entry>, chart: Chart)
    ensures (exists k :: 0 <= k < |entries| && !ParsesCleanly(entries[k])) ==>
      ReportFromEntries(entries, chart) == Err(BadDateTime)
    ensures Prepare(entries).Ok? ==>
      (ReportFromEntries(entries, chart).Err? <==> FrameBlocked(Prepare(entries).value, chart))
  {
    if Prepare(entries).Ok? {
      DeriveFailsIffBlocked(Prepare(entries).value, chart);
    }
  }

  /** Input in which no cleaned line contains "miles" gives no entries and an empty report. */
  lemma NoMarkerNoTrips(userInput: string, chart: Chart)
    requires forall k :: 0 <= k < |SplitLines(userInput)| ==> !Contains(CleanLine(SplitLines(userInput)[k]), Marker)
    ensures Extract(userInput) == []
    ensures ReportFromEntries(Extract(userInput), chart) == Ok([])
    ensures MparserResult(userInput, false, chart) == Ok(Report([]))
  {
    NoMarkerNoEntries(SplitLines(userInput));
    assert NormalizeAll([]) == Ok([]);
    assert UniqueDates([]) == [];
  }

  /**
   * The walk of a date whose four rows are at branches A, B, B, C: the pairs are
   * A-B, B-B and B-C, the pair B-B is skipped, and the trips are A to B and B to C.
   */
  lemma RepeatedBranchIsSkipped(date: string, rows: seq<Record>, a: string, b: string, c: string, chart: Chart)
    requires |rows| == 4 && rows[0].branch == a && rows[1].branch == b && rows[2].branch == b && rows[3].branch == c
    requires a != b && b != c
    requires Moves((a, b), chart) && Moves((b, c), chart)
    ensures TripsFromPairs(date, Pairs(rows), chart)
      == Ok([Trip(date, a, b, chart[Conv[a]][Conv[b]]), Trip(date, b, c, chart[Conv[b]][Conv[c]])])
  {
    var ps := Pairs(rows);
    assert ps[0] == (a, b) && ps[1] == (b, b) && ps[2] == (b, c);
    assert ps == [(a, b), (b, b), (b, c)];
    WalkOfThreePairs(date, a, b, c, chart);
  }

  /** The walk over the pairs A-B, B-B, B-C. */
  lemma WalkOfThreePairs(date: string, a: string, b: string, c: string, chart: Chart)
    requires a != b && b != c
    requires Moves((a, b), chart) && Moves((b, c), chart)
    ensures TripsFromPairs(date, [(a, b), (b, b), (b, c)], chart)
      == Ok([Trip(date, a, b, chart[Conv[a]][Conv[b]]), Trip(date, b, c, chart[Conv[b]][Conv[c]])])
  {
    var ab, bc := Trip(date, a, b, chart[Conv[a]][Conv[b]]), Trip(date, b, c, chart[Conv[b]][Conv[c]]);
    var p1 := [(a, b)];
    var p2 := p1 + [(b, b)];
    var p3 := p2 + [(b, c)];
    assert p1[..|p1| - 1] == [] && p2[..|p2| - 1] == p1 && p3[..|p3| - 1] == p2;
    assert TripsFromPairs(date, [], chart) == Ok([]);
    assert PairTrip(date, (a, b), chart) == Ok(Some(ab));
    assert PairTrip(date, (b, b), chart) == Ok(None);
    assert PairTrip(date, (b, c), chart) == Ok(Some(bc));
    assert [] + [ab] == [ab];
    assert TripsFromPairs(date, p1, chart) == Ok([ab]);
    assert TripsFromPairs(date, p2, chart) == Ok([ab]);
    assert [ab] + [bc] == [ab, bc];
    assert TripsFromPairs(date, p3, chart) == Ok([ab, bc]);
    assert p3 == [(a, b), (b, b), (b, c)];
  }
}
