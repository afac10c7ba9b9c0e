/**
 * Trip deriver: the last part of the parser. For each check-in date, in order
 * of first appearance, the rows of that date are walked in pairs (row x-1,
 * row x); a pair of different branch names becomes a trip whose distance is
 * looked up in the mileage chart through the branch-name-to-code map, unless
 * that distance is zero. A name or code the lookup cannot find aborts the call.
 */
module Mileage {
  import opened Wrappers
  import opened Records

  /** The mileage chart as `chart[fromCode][toCode]`; 0.0 means "no distance". */
  type Chart = map<string, map<string, real>>

  /** A row of the final report. */
  datatype Trip = Trip(date: string, fromBranch: string, toBranch: string, distance: real)

  /** `conv_dict`: branch display names as the export writes them, to the chart's codes. */
  const Conv: map<string, string> := map[
    "Main Library" := "MAIN",
    "Birmingham Branch" := "BIRM",
    "Heatherdowns Branch" := "HED",
    "Holland Branch" := "HOLL",
    "Kent Branch" := "KENT",
    "Mobile Services" := "KINGRD",
    "King Road Branch" := "KINGRD",
    "Lagrange Branch" := "LAG",
    "Locke Branch" := "LOCKE",
    "Maumee Branch" := "MAUM",
    "Mott Branch" := "MOTT",
    "Oregon Branch" := "OREG",
    "Friends of the Library" := "WAREHOUSE",
    "Point Place Branch" := "PTPL",
    "Reynolds Corners Branch" := "RC",
    "Sanger Branch" := "SANG",
    "South Branch" := "SOUTH",
    "Sylvania Branch" := "SYLV",
    "Toledo Heights Branch" := "TH",
    "Washington Branch" := "WASH",
    "Waterville Branch" := "WATV",
    "West Toledo Branch" := "WTOL",
    "Cherry Street Mission" := "MAIN"
  ]

  /** Both names have codes and the chart has a cell for the two codes. */
  predicate Resolvable(fromLoc: string, toLoc: string, chart: Chart)
  {
    fromLoc in Conv && toLoc in Conv && Conv[fromLoc] in chart && Conv[toLoc] in chart[Conv[fromLoc]]
  }

  /** `get_mileage`: `chartDF.loc[conv_dict[from_loc]][conv_dict[to_loc]]`. */
  function GetMileage(fromLoc: string, toLoc: string, chart: Chart): (r: Result<real, Failure>)
    ensures r.Ok? <==> Resolvable(fromLoc, toLoc, chart)
    ensures r.Ok? ==> r.value == chart[Conv[fromLoc]][Conv[toLoc]]
    ensures r.Err? && fromLoc !in Conv ==> r.error == UnmappedBranch(fromLoc)
    ensures r.Err? && fromLoc in Conv && toLoc !in Conv ==> r.error == UnmappedBranch(toLoc)
  {
    if fromLoc !in Conv then Err(UnmappedBranch(fromLoc))
    else if toLoc !in Conv then Err(UnmappedBranch(toLoc))
    else
      var fromCode, toCode := Conv[fromLoc], Conv[toLoc];
      if fromCode !in chart || toCode !in chart[fromCode] then Err(MissingDistance(fromCode, toCode))
      else Ok(chart[fromCode][toCode])
  }

  /**
   * The aliases of `conv_dict`: "Mobile Services" and "King Road Branch" are the
   * same place for the chart, and so are "Cherry Street Mission" and "Main
   * Library", whichever end of a trip they are on.
   */
  lemma AliasesShareDistances(other: string, chart: Chart)
    ensures GetMileage("Mobile Services", other, chart) == GetMileage("King Road Branch", other, chart)
    ensures GetMileage(other, "Mobile Services", chart) == GetMileage(other, "King Road Branch", chart)
    ensures GetMileage("Cherry Street Mission", other, chart) == GetMileage("Main Library", other, chart)
    ensures GetMileage(other, "Cherry Street Mission", chart) == GetMileage(other, "Main Library", chart)
  {
    assert Conv["Mobile Services"] == Conv["King Road Branch"] == "KINGRD";
    assert Conv["Cherry Street Mission"] == Conv["Main Library"] == "MAIN";
  }

  /** A movement between two named branches that the report lists. */
  predicate IsLeg(t: Trip, chart: Chart)
  {
    && t.fromBranch != t.toBranch
    && Resolvable(t.fromBranch, t.toBranch, chart)
    && t.distance == chart[Conv[t.fromBranch]][Conv[t.toBranch]]
    && t.distance != 0.0
  }

  /** A pair of different names whose distance cannot be looked up: the walk stops on it. */
  predicate Blocked(p: (string, string), chart: Chart)
  {
    p.0 != p.1 && !Resolvable(p.0, p.1, chart)
  }

  /** A pair whose names differ and whose distance is not zero: it becomes a trip. */
  predicate Moves(p: (string, string), chart: Chart)
  {
    p.0 != p.1 && Resolvable(p.0, p.1, chart) && chart[Conv[p.0]][Conv[p.1]] != 0.0
  }

  /** One pair of the walk: no trip for equal names or a zero distance. */
  function PairTrip(date: string, p: (string, string), chart: Chart): (r: Result<Option<Trip>, Failure>)
    ensures r.Err? <==> Blocked(p, chart)
    ensures r.Ok? ==> (r.value.Some? <==> Moves(p, chart))
    ensures r.Ok? && r.value.Some? ==>
      r.value.value.date == date && IsLeg(r.value.value, chart) && (r.value.value.fromBranch, r.value.value.toBranch) == p
  {
    if p.0 == p.1 then Ok(None)
    else
      match GetMileage(p.0, p.1, chart)
      case Err(e) => Err(e)
      case Ok(d) => if d == 0.0 then Ok(None) else Ok(Some(Trip(date, p.0, p.1, d)))
  }

  /** The branch names of consecutive rows: (row x-1, row x) for x = 1 .. n-1. */
  function Pairs(rows: seq<Record>): (ps: seq<(string, string)>)
    ensures |ps| == if |rows| == 0 then 0 else |rows| - 1
    ensures forall x :: 1 <= x < |rows| ==> ps[x - 1] == (rows[x - 1].branch, rows[x].branch)
  {
    if |rows| <= 1 then []
    else seq(|rows| - 1, k requires 0 <= k < |rows| - 1 => (rows[k].branch, rows[k + 1].branch))
  }

  /** The trips of one date: every pair in walk order, stopping at the first failed lookup. */
  function TripsFromPairs(date: string, pairs: seq<(string, string)>, chart: Chart): (r: Result<seq<Trip>, Failure>)
    ensures r.Err? <==> exists k :: 0 <= k < |pairs| && Blocked(pairs[k], chart)
    ensures r.Ok? ==> |r.value| <= |pairs|
    ensures r.Ok? ==> forall t :: t in r.value ==>
      t.date == date && IsLeg(t, chart) && (t.fromBranch, t.toBranch) in pairs
  {
    if pairs == [] then Ok([])
    else
      var init, last := pairs[..|pairs| - 1], pairs[|pairs| - 1];
      assert forall k :: 0 <= k < |init| ==> init[k] == pairs[k];
      match TripsFromPairs(date, init, chart)
      case Err(e) => Err(e)
      case Ok(ts) =>
        match PairTrip(date, last, chart)
        case Err(e) => Err(e)
        case Ok(None) => Ok(ts)
        case Ok(Some(t)) => Ok(ts + [t])
  }

  /** Once a prefix of the walk has failed, the whole walk fails with the same error. */
  lemma {:induction false} FailureIsFinal(date: string, pairs: seq<(string, string)>, k: nat, chart: Chart)
    requires k <= |pairs| && TripsFromPairs(date, pairs[..k], chart).Err?
    ensures TripsFromPairs(date, pairs, chart) == TripsFromPairs(date, pairs[..k], chart)
    decreases |pairs| - k
  {
    if k < |pairs| {
      var next := pairs[..k + 1];
      assert next[..|next| - 1] == pairs[..k];
      FailureIsFinal(date, pairs, k + 1, chart);
    } else {
      assert pairs[..k] == pairs;
    }
  }

  /**
   * `idx` lists, increasing, the positions of `pairs` that became `trips`, one
   * per trip and in the same order, and they are exactly the moving pairs.
   */
  predicate MovingIndexes(pairs: seq<(string, string)>, trips: seq<Trip>, idx: seq<nat>, chart: Chart)
  {
    && |idx| == |trips|
    && (forall j :: 0 <= j < |idx| ==>
          idx[j] < |pairs| && Moves(pairs[idx[j]], chart) && (trips[j].fromBranch, trips[j].toBranch) == pairs[idx[j]])
    && (forall i, j :: 0 <= i < j < |idx| ==> idx[i] < idx[j])
    && (forall k :: 0 <= k < |pairs| ==> (k in idx <==> Moves(pairs[k], chart)))
  }

  /**
   * The walk trips exactly the moving pairs, in walk order: every pair left out
   * either repeats a branch name or has a zero distance.
   */
  lemma {:induction false} TripsAreMovingPairs(date: string, pairs: seq<(string, string)>, chart: Chart)
    returns (idx: seq<nat>)
    requires TripsFromPairs(date, pairs, chart).Ok?
    ensures MovingIndexes(pairs, TripsFromPairs(date, pairs, chart).value, idx, chart)
  {
    if pairs == [] {
      idx := [];
    } else {
      var init, last := pairs[..|pairs| - 1], pairs[|pairs| - 1];
      TripsFromPairsSnoc(date, pairs, chart);
      var before := TripsAreMovingPairs(date, init, chart);
      var t := Trip(date, last.0, last.1, if Moves(last, chart) then chart[Conv[last.0]][Conv[last.1]] else 0.0);
      idx := MovingIndexesSnoc(pairs, TripsFromPairs(date, init, chart).value, before, t, chart);
    }
  }

  /** The walk of a non-empty list of pairs that succeeds: the walk of all but the last, plus the last pair's trip if it moves. */
  lemma TripsFromPairsSnoc(date: string, pairs: seq<(string, string)>, chart: Chart)
    requires pairs != [] && TripsFromPairs(date, pairs, chart).Ok?
    ensures TripsFromPairs(date, pairs[..|pairs| - 1], chart).Ok?
    ensures var init, last := pairs[..|pairs| - 1], pairs[|pairs| - 1];
      !Moves(last, chart) ==> TripsFromPairs(date, pairs, chart) == TripsFromPairs(date, init, chart)
    ensures var init, last := pairs[..|pairs| - 1], pairs[|pairs| - 1];
      Moves(last, chart) ==>
        (TripsFromPairs(date, pairs, chart).value
           == TripsFromPairs(date, init, chart).value + [Trip(date, last.0, last.1, chart[Conv[last.0]][Conv[last.1]])])
  {
  }

  /** Extending the pairs by one: a moving last pair adds its index, any other adds nothing. */
  lemma MovingIndexesSnoc(pairs: seq<(string, string)>, trips: seq<Trip>, before: seq<nat>, t: Trip, chart: Chart)
    returns (idx: seq<nat>)
    requires pairs != [] && MovingIndexes(pairs[..|pairs| - 1], trips, before, chart)
    requires (t.fromBranch, t.toBranch) == pairs[|pairs| - 1]
    ensures Moves(pairs[|pairs| - 1], chart) ==> MovingIndexes(pairs, trips + [t], idx, chart)
    ensures !Moves(pairs[|pairs| - 1], chart) ==> MovingIndexes(pairs, trips, idx, chart)
  {
    var n := |pairs| - 1;
    var init := pairs[..n];
    assert forall k :: 0 <= k < n ==> init[k] == pairs[k];
    if Moves(pairs[n], chart) {
      idx := before + [n];
      var ts := trips + [t];
      forall j | 0 <= j < |idx|
        ensures idx[j] < |pairs| && Moves(pairs[idx[j]], chart) && (ts[j].fromBranch, ts[j].toBranch) == pairs[idx[j]]
      {
        if j < |before| {
          assert idx[j] == before[j] && ts[j] == trips[j] && init[before[j]] == pairs[before[j]];
        }
      }
      forall i, j | 0 <= i < j < |idx| ensures idx[i] < idx[j] {
        if j < |before| {
          assert idx[i] == before[i] && idx[j] == before[j];
        }
      }
      forall k | 0 <= k < |pairs| ensures k in idx <==> Moves(pairs[k], chart) {
        if k < n {
          assert k in idx <==> k in before;
        }
      }
    } else {
      idx := before;
      forall k | 0 <= k < |pairs| ensures k in idx <==> Moves(pairs[k], chart) {
        if k < n {
          assert init[k] == pairs[k];
        } else {
          assert k !in before;
        }
      }
    }
  }

  /** A date with a single row, like a date with none, contributes no trips and looks nothing up. */
  lemma SingleRowNoTrips(date: string, rows: seq<Record>, chart: Chart)
    requires |rows| <= 1
    ensures TripsFromPairs(date, Pairs(rows), chart) == Ok([])
  {
  }

  lemma PairsPrefix(rows: seq<Record>, x: nat)
    requires 1 <= x < |rows|
    ensures Pairs(rows[..x + 1]) == Pairs(rows[..x]) + [(rows[x - 1].branch, rows[x].branch)]
    ensures Pairs(rows[..x + 1]) == Pairs(rows)[..x]
  {
    var a, b := Pairs(rows[..x + 1]), Pairs(rows[..x]) + [(rows[x - 1].branch, rows[x].branch)];
    assert |a| == |b|;
    forall k | 0 <= k < |a| ensures a[k] == b[k] {
      assert rows[..x + 1][k] == rows[k] && rows[..x + 1][k + 1] == rows[k + 1];
    }
  }

  /** What visiting row x adds to the walk of the rows before it. */
  lemma WalkStep(date: string, rows: seq<Record>, x: nat, chart: Chart)
    requires 1 <= x < |rows| && TripsFromPairs(date, Pairs(rows[..x]), chart).Ok?
    ensures Pairs(rows[..x + 1]) == Pairs(rows)[..x]
    ensures var before, p := TripsFromPairs(date, Pairs(rows[..x]), chart).value, (rows[x - 1].branch, rows[x].branch);
      && (p.0 == p.1 ==> TripsFromPairs(date, Pairs(rows[..x + 1]), chart) == Ok(before))
      && (p.0 != p.1 && GetMileage(p.0, p.1, chart).Err? ==>
            TripsFromPairs(date, Pairs(rows[..x + 1]), chart) == Err(GetMileage(p.0, p.1, chart).error))
      && (p.0 != p.1 && GetMileage(p.0, p.1, chart).Ok? && GetMileage(p.0, p.1, chart).value == 0.0 ==>
            TripsFromPairs(date, Pairs(rows[..x + 1]), chart) == Ok(before))
      && (p.0 != p.1 && GetMileage(p.0, p.1, chart).Ok? && GetMileage(p.0, p.1, chart).value != 0.0 ==>
            TripsFromPairs(date, Pairs(rows[..x + 1]), chart)
              == Ok(before + [Trip(date, p.0, p.1, GetMileage(p.0, p.1, chart).value)]))
  {
    PairsPrefix(rows, x);
    var next := Pairs(rows[..x + 1]);
    assert next[..|next| - 1] == Pairs(rows[..x]);
  }

  /**
   * The per-date loop of the source: `from_branch` and `to_branch` are carried
   * from one row to the next, row 0 only seeds the first pair, and an equal
   * pair or a zero distance goes on to the next row.
   */
  method WalkDate(date: string, selected: seq<Record>, chart: Chart) returns (r: Result<seq<Trip>, Failure>)
    ensures r == TripsFromPairs(date, Pairs(selected), chart)
  {
    var trips: seq<Trip> := [];
    var n := |selected|;
    if n != 1 {
      var fromBranch, toBranch := "", "";
      for x := 0 to n
        invariant x <= 1 ==> trips == []
        invariant x >= 2 ==> toBranch == selected[x - 1].branch
        invariant x >= 1 ==> TripsFromPairs(date, Pairs(selected[..x]), chart) == Ok(trips)
      {
        if x == 0 {
          continue;
        } else if x == 1 {
          fromBranch := selected[0].branch;
          toBranch := selected[1].branch;
        } else {
          fromBranch := toBranch;
          toBranch := selected[x].branch;
        }
        WalkStep(date, selected, x, chart);
        if fromBranch != toBranch {
          var distance := GetMileage(fromBranch, toBranch, chart);
          if distance.Err? {
            FailureIsFinal(date, Pairs(selected), x, chart);
            return Err(distance.error);
          }
          if distance.value == 0.0 {
            continue;
          }
          trips := trips + [Trip(date, fromBranch, toBranch, distance.value)];
        }
      }
      if n > 0 {
        assert selected[..n] == selected;
      }
    }
    return Ok(trips);
  }

  /** The rows of one date, walked. */
  function DateTrips(rows: seq<Record>, chart: Chart): string -> Result<seq<Trip>, Failure>
  {
    date => TripsFromPairs(date, Pairs(Select(rows, date)), chart)
  }

  /** `df[df.date == date]`, then the walk of those rows. */
  method WalkSelected(rows: seq<Record>, date: string, chart: Chart) returns (r: Result<seq<Trip>, Failure>)
    ensures r == DateTrips(rows, chart)(date)
  {
    var selectedRows := Select(rows, date);
    r := WalkDate(date, selectedRows, chart);
    DateTripsAt(rows, chart, date);
  }

  lemma DateTripsAt(rows: seq<Record>, chart: Chart, date: string)
    ensures DateTrips(rows, chart)(date) == TripsFromPairs(date, Pairs(Select(rows, date)), chart)
  {
  }

  /** The trips of each date in turn, appended, stopping at the first date whose walk fails. */
  function ConcatAll(perDate: string -> Result<seq<Trip>, Failure>, dates: seq<string>): (r: Result<seq<Trip>, Failure>)
    ensures r.Err? <==> exists j :: 0 <= j < |dates| && perDate(dates[j]).Err?
    ensures r.Ok? ==> forall t :: t in r.value ==>
      exists j :: 0 <= j < |dates| && perDate(dates[j]).Ok? && t in perDate(dates[j]).value
  {
    if dates == [] then Ok([])
    else
      var init, last := dates[..|dates| - 1], dates[|dates| - 1];
      assert forall j :: 0 <= j < |init| ==> init[j] == dates[j];
      match ConcatAll(perDate, init)
      case Err(e) => Err(e)
      case Ok(ts) =>
        match perDate(last)
        case Err(e) => Err(e)
        case Ok(more) => Ok(ts + more)
  }

  /** The trips of the whole frame, date by date in the order `unique()` lists the dates. */
  function DeriveTrips(rows: seq<Record>, chart: Chart): Result<seq<Trip>, Failure>
  {
    ConcatAll(DateTrips(rows, chart), UniqueDates(rows))
  }

  /**
   * The date loop of the source: each unique date's rows are selected and
   * walked, and the first failed lookup ends the call.
   */
  method DeriveTripsLoop(rows: seq<Record>, chart: Chart) returns (r: Result<seq<Trip>, Failure>)
    ensures r == DeriveTrips(rows, chart)
  {
    var uniqueDates := UniqueDates(rows);
    r := WalkDates(rows, uniqueDates, chart);
  }

  /** The loop over the dates proper: each date's rows walked in turn, stopping at the first failure. */
  method WalkDates(rows: seq<Record>, dates: seq<string>, chart: Chart) returns (r: Result<seq<Trip>, Failure>)
    ensures r == ConcatAll(DateTrips(rows, chart), dates)
  {
    var perDate := DateTrips(rows, chart);
    var finalTrips: seq<Trip> := [];
    for i := 0 to |dates|
      invariant ConcatAll(perDate, dates[..i]) == Ok(finalTrips)
    {
      var trips := WalkSelected(rows, dates[i], chart);
      ConcatAllStep(perDate, dates, i, finalTrips, trips);
      if trips.Err? {
        return Err(trips.error);
      }
      finalTrips := finalTrips + trips.value;
    }
    assert dates[..|dates|] == dates;
    return Ok(finalTrips);
  }

  lemma ConcatAllExtend(perDate: string -> Result<seq<Trip>, Failure>, dates: seq<string>, i: nat)
    requires i < |dates| && ConcatAll(perDate, dates[..i]).Ok?
    ensures perDate(dates[i]).Err? ==> ConcatAll(perDate, dates[..i + 1]) == Err(perDate(dates[i]).error)
    ensures perDate(dates[i]).Ok? ==>
      ConcatAll(perDate, dates[..i + 1]) == Ok(ConcatAll(perDate, dates[..i]).value + perDate(dates[i]).value)
  {
    assert dates[..i + 1][..i] == dates[..i];
  }

  /** One turn of the date loop: a failed walk ends the whole walk, a successful one is appended. */
  lemma ConcatAllStep(perDate: string -> Result<seq<Trip>, Failure>, dates: seq<string>, i: nat,
                      before: seq<Trip>, trips: Result<seq<Trip>, Failure>)
    requires i < |dates| && ConcatAll(perDate, dates[..i]) == Ok(before) && trips == perDate(dates[i])
    ensures trips.Err? ==> ConcatAll(perDate, dates) == Err(trips.error)
    ensures trips.Ok? ==> ConcatAll(perDate, dates[..i + 1]) == Ok(before + trips.value)
  {
    ConcatAllExtend(perDate, dates, i);
    if trips.Err? {
      FirstFailureIsFinal(perDate, dates, i + 1);
    }
  }

  lemma {:induction false} FirstFailureIsFinal(perDate: string -> Result<seq<Trip>, Failure>, dates: seq<string>, k: nat)
    requires k <= |dates| && ConcatAll(perDate, dates[..k]).Err?
    ensures ConcatAll(perDate, dates) == ConcatAll(perDate, dates[..k])
    decreases |dates| - k
  {
    if k < |dates| {
      var next := dates[..k + 1];
      assert next[..|next| - 1] == dates[..k];
      FirstFailureIsFinal(perDate, dates, k + 1);
    } else {
      assert dates[..k] == dates;
    }
  }
}

module MileageFacts {
  import opened Wrappers
  import opened Records
  import opened Mileage

  /** Two consecutive rows of a date whose names differ and whose distance cannot be looked up. */
  predicate WalkBlocked(rows: seq<Record>, chart: Chart)
  {
    exists x :: 1 <= x < |rows| && Blocked((rows[x - 1].branch, rows[x].branch), chart)
  }

  lemma BlockedPairIffWalkBlocked(rows: seq<Record>, chart: Chart)
    ensures (exists k :: 0 <= k < |Pairs(rows)| && Blocked(Pairs(rows)[k], chart)) <==> WalkBlocked(rows, chart)
  {
    var ps := Pairs(rows);
    if exists k :: 0 <= k < |ps| && Blocked(ps[k], chart) {
      var k :| 0 <= k < |ps| && Blocked(ps[k], chart);
      assert ps[(k + 1) - 1] == (rows[k].branch, rows[k + 1].branch);
    }
    if WalkBlocked(rows, chart) {
      var x :| 1 <= x < |rows| && Blocked((rows[x - 1].branch, rows[x].branch), chart);
      assert Blocked(ps[x - 1], chart);
    }
  }

  /** A trip of one date's walk joins two consecutive rows of that date. */
  predicate JoinsConsecutive(t: Trip, rows: seq<Record>)
  {
    exists x :: 1 <= x < |rows| && rows[x - 1].branch == t.fromBranch && rows[x].branch == t.toBranch
  }

  lemma WalkTripJoinsConsecutive(date: string, rows: seq<Record>, chart: Chart, t: Trip)
    requires TripsFromPairs(date, Pairs(rows), chart).Ok? && t in TripsFromPairs(date, Pairs(rows), chart).value
    ensures t.date == date && IsLeg(t, chart) && JoinsConsecutive(t, rows)
  {
    var ps := Pairs(rows);
    assert (t.fromBranch, t.toBranch) in ps;
    var k :| 0 <= k < |ps| && ps[k] == (t.fromBranch, t.toBranch);
    var x := k + 1;
    assert ps[x - 1] == (rows[x - 1].branch, rows[x].branch);
    assert 1 <= x < |rows| && rows[x - 1].branch == t.fromBranch && rows[x].branch == t.toBranch;
  }

  lemma DateHasRow(rows: seq<Record>, d: string)
    requires d in UniqueDates(rows)
    ensures exists k :: 0 <= k < |rows| && rows[k].dateIn == d
  {
  }

  /**
   * A trip as the report may hold it: a leg between two differently named
   * branches with the chart's non-zero distance, on a date some row has, joining
   * two consecutive rows of that date.
   */
  predicate IsReportedLeg(t: Trip, rows: seq<Record>, chart: Chart)
  {
    && IsLeg(t, chart)
    && (exists k :: 0 <= k < |rows| && rows[k].dateIn == t.date)
    && JoinsConsecutive(t, Select(rows, t.date))
  }

  lemma DateTripIsReportedLeg(rows: seq<Record>, chart: Chart, d: string, t: Trip)
    requires d in UniqueDates(rows)
    requires DateTrips(rows, chart)(d).Ok? && t in DateTrips(rows, chart)(d).value
    ensures IsReportedLeg(t, rows, chart)
  {
    WalkTripJoinsConsecutive(d, Select(rows, d), chart, t);
    DateHasRow(rows, d);
  }

  /** Every reported trip is a leg between consecutive rows of its date. */
  lemma DerivedTripsAreLegs(rows: seq<Record>, chart: Chart)
    requires DeriveTrips(rows, chart).Ok?
    ensures forall t :: t in DeriveTrips(rows, chart).value ==> IsReportedLeg(t, rows, chart)
  {
    var dates, perDate := UniqueDates(rows), DateTrips(rows, chart);
    forall t | t in DeriveTrips(rows, chart).value ensures IsReportedLeg(t, rows, chart) {
      var j :| 0 <= j < |dates| && perDate(dates[j]).Ok? && t in perDate(dates[j]).value;
      DateTripIsReportedLeg(rows, chart, dates[j], t);
    }
  }

  lemma DateFailsIffBlocked(rows: seq<Record>, d: string, chart: Chart)
    ensures DateTrips(rows, chart)(d).Err? <==> WalkBlocked(Select(rows, d), chart)
  {
    BlockedPairIffWalkBlocked(Select(rows, d), chart);
  }

  /** Some date of the frame has two consecutive rows whose distance cannot be looked up. */
  predicate FrameBlocked(rows: seq<Record>, chart: Chart)
  {
    exists k :: 0 <= k < |rows| && WalkBlocked(Select(rows, rows[k].dateIn), chart)
  }

  lemma FailureHasBlockedDate(rows: seq<Record>, chart: Chart)
    requires DeriveTrips(rows, chart).Err?
    ensures FrameBlocked(rows, chart)
  {
    var dates, perDate := UniqueDates(rows), DateTrips(rows, chart);
    var j :| 0 <= j < |dates| && perDate(dates[j]).Err?;
    DateFailsIffBlocked(rows, dates[j], chart);
    DateHasRow(rows, dates[j]);
  }

  lemma BlockedDateFails(rows: seq<Record>, chart: Chart)
    requires FrameBlocked(rows, chart)
    ensures DeriveTrips(rows, chart).Err?
  {
    var dates, perDate := UniqueDates(rows), DateTrips(rows, chart);
    var k :| 0 <= k < |rows| && WalkBlocked(Select(rows, rows[k].dateIn), chart);
    var d := rows[k].dateIn;
    assert d in dates;
    var j :| 0 <= j < |dates| && dates[j] == d;
    DateFailsIffBlocked(rows, d, chart);
  }

  /**
   * The derivation fails exactly when, on some date, two consecutive rows with
   * different names cannot be looked up. A name missing from the map is harmless
   * as long as it only meets itself or is alone on its date.
   */
  lemma DeriveFailsIffBlocked(rows: seq<Record>, chart: Chart)
    ensures DeriveTrips(rows, chart).Err? <==> FrameBlocked(rows, chart)
  {
    if DeriveTrips(rows, chart).Err? {
      FailureHasBlockedDate(rows, chart);
    }
    if FrameBlocked(rows, chart) {
      BlockedDateFails(rows, chart);
    }
  }

  lemma {:induction false} ConcatAllFollowsDates(perDate: string -> Result<seq<Trip>, Failure>, dates: seq<string>)
    requires forall i, j :: 0 <= i < j < |dates| ==> dates[i] != dates[j]
    requires forall d, t :: perDate(d).Ok? && t in perDate(d).value ==> t.date == d
    requires ConcatAll(perDate, dates).Ok?
    ensures forall t :: t in ConcatAll(perDate, dates).value ==> t.date in dates
    ensures var ts := ConcatAll(perDate, dates).value;
      forall i, j :: 0 <= i < j < |ts| ==> FirstIndex(dates, ts[i].date) <= FirstIndex(dates, ts[j].date)
  {
    var ts := ConcatAll(perDate, dates).value;
    forall t | t in ts ensures t.date in dates {
      var j :| 0 <= j < |dates| && perDate(dates[j]).Ok? && t in perDate(dates[j]).value;
    }
    if dates != [] {
      var init, last := dates[..|dates| - 1], dates[|dates| - 1];
      assert forall j :: 0 <= j < |init| ==> init[j] == dates[j];
      ConcatAllFollowsDates(perDate, init);
      var before, more := ConcatAll(perDate, init).value, perDate(last).value;
      assert ts == before + more;
      assert FirstIndex(dates, last) == |dates| - 1;
      forall d | d in init ensures FirstIndex(dates, d) == FirstIndex(init, d) {
        var a, b := FirstIndex(dates, d), FirstIndex(init, d);
        assert dates[b] == d;
      }
      forall i, j | 0 <= i < j < |ts| ensures FirstIndex(dates, ts[i].date) <= FirstIndex(dates, ts[j].date) {
        if j < |before| {
          assert ts[i] == before[i] && ts[j] == before[j];
        } else if i < |before| {
          assert ts[i] == before[i] && ts[j] == more[j - |before|];
          assert ts[i].date in init;
        } else {
          assert ts[i] == more[i - |before|] && ts[j] == more[j - |before|];
        }
      }
    }
  }

  /**
   * Trips are grouped by date: a trip never follows a trip of a date that first
   * appears later in the sorted frame.
   */
  lemma DerivedTripsFollowDates(rows: seq<Record>, chart: Chart)
    requires DeriveTrips(rows, chart).Ok?
    ensures forall t :: t in DeriveTrips(rows, chart).value ==> t.date in UniqueDates(rows)
    ensures var ts, dates := DeriveTrips(rows, chart).value, UniqueDates(rows);
      forall i, j :: 0 <= i < j < |ts| ==> FirstIndex(dates, ts[i].date) <= FirstIndex(dates, ts[j].date)
  {
    ConcatAllFollowsDates(DateTrips(rows, chart), UniqueDates(rows));
  }
  /** The trips of one date, in report order. */
  function Only(ts: seq<Trip>, d: string): (r: seq<Trip>)
    ensures forall t :: t in r <==> t in ts && t.date == d
  {
    if ts == [] then []
    else (if ts[0].date == d then [ts[0]] else []) + Only(ts[1..], d)
  }

  lemma {:induction false} OnlyAppend(a: seq<Trip>, b: seq<Trip>, d: string)
    ensures Only(a + b, d) == Only(a, d) + Only(b, d)
  {
    if a == [] {
      assert a + b == b;
    } else {
      assert (a + b)[1..] == a[1..] + b;
      OnlyAppend(a[1..], b, d);
    }
  }

  lemma {:induction false} OnlyOneDate(ts: seq<Trip>, d: string)
    requires forall t :: t in ts ==> t.date == d
    ensures Only(ts, d) == ts
  {
    if ts != [] {
      OnlyOneDate(ts[1..], d);
    }
  }

  lemma {:induction false} OnlyOtherDates(ts: seq<Trip>, d: string)
    requires forall t :: t in ts ==> t.date != d
    ensures Only(ts, d) == []
  {
    if ts != [] {
      OnlyOtherDates(ts[1..], d);
    }
  }

  /**
   * With distinct dates whose walks carry their own date, the appended trips hold
   * each date's walk whole and in walk order, and nothing of any other date.
   */
  lemma {:induction false} ConcatAllPerDate(perDate: string -> Result<seq<Trip>, Failure>, dates: seq<string>)
    requires forall i, j :: 0 <= i < j < |dates| ==> dates[i] != dates[j]
    requires forall d, t :: perDate(d).Ok? && t in perDate(d).value ==> t.date == d
    requires ConcatAll(perDate, dates).Ok?
    ensures forall d :: d in dates ==> perDate(d).Ok? && Only(ConcatAll(perDate, dates).value, d) == perDate(d).value
    ensures forall d :: d !in dates ==> Only(ConcatAll(perDate, dates).value, d) == []
  {
    if dates != [] {
      var init, last := dates[..|dates| - 1], dates[|dates| - 1];
      assert forall j :: 0 <= j < |init| ==> init[j] == dates[j];
      assert dates == init + [last];
      ConcatAllPerDate(perDate, init);
      var before, more := ConcatAll(perDate, init).value, perDate(last).value;
      var ts := ConcatAll(perDate, dates).value;
      assert ts == before + more;
      assert last !in init by {
        forall j | 0 <= j < |init| ensures init[j] != last {
          assert dates[j] != dates[|dates| - 1];
        }
      }
      forall d ensures Only(ts, d) == (if d in dates then perDate(d).value else []) {
        OnlyAppend(before, more, d);
        if d == last {
          OnlyOneDate(more, d);
        } else {
          OnlyOtherDates(more, d);
        }
      }
      forall d | d in dates ensures perDate(d).Ok? {
        var j :| 0 <= j < |dates| && dates[j] == d;
      }
    }
  }

  /**
   * The derived trips of each date are exactly that date's walk, whole and in
   * walk order; a date without rows contributes nothing.
   */
  lemma DeriveTripsPerDate(rows: seq<Record>, chart: Chart)
    requires DeriveTrips(rows, chart).Ok?
    ensures forall d :: (TripsFromPairs(d, Pairs(Select(rows, d)), chart).Ok?
      && Only(DeriveTrips(rows, chart).value, d) == TripsFromPairs(d, Pairs(Select(rows, d)), chart).value)
  {
    var dates, perDate := UniqueDates(rows), DateTrips(rows, chart);
    forall d, t | perDate(d).Ok? && t in perDate(d).value ensures t.date == d {
      DateTripsAt(rows, chart, d);
    }
    ConcatAllPerDate(perDate, dates);
    forall d ensures TripsFromPairs(d, Pairs(Select(rows, d)), chart).Ok?
      && Only(DeriveTrips(rows, chart).value, d) == TripsFromPairs(d, Pairs(Select(rows, d)), chart).value
    {
      DateTripsAt(rows, chart, d);
      if d !in dates {
        NoRowsOfOtherDates(rows, d);
      }
    }
  }

  /** A date that no row carries selects no rows. */
  lemma NoRowsOfOtherDates(rows: seq<Record>, d: string)
    requires d !in UniqueDates(rows)
    ensures Select(rows, d) == []
  {
  }
}
