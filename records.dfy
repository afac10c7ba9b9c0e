/**
 * The "clean data" half of the parser: each raw entry's dates and times are
 * parsed (any failure aborts the whole call), the dates are rewritten as
 * `YYYY-MM-DD` and the times as `HH:MM AM/PM`, rows whose duration is "0:00"
 * are dropped, and the rest are sorted by check-in moment. The unique
 * check-in dates, in order of first appearance, and the rows of one date are
 * what the trip deriver walks.
 */
module Records {
  import opened Wrappers
  import opened Strings
  import opened DateTime
  import opened Extractor

  /** A row of the cleaned data frame, including the two combined datetime columns. */
  datatype Record = Record(branch: string, timeIn: string, dateIn: string, timeOut: string,
                           dateOut: string, duration: string, length: string,
                           stampIn: Stamp, stampOut: Stamp)

  /** Why a whole call fails; each stands for an exception the source does not catch. */
  datatype Failure =
    | BadDateTime                                  // a date or time column does not match its format
    | UnmappedBranch(name: string)                 // a branch name missing from conv_dict
    | MissingDistance(fromCode: string, toCode: string)  // a code missing from the mileage chart

  /** A duration of zero: an automatic check-in and check-out while driving past a branch. */
  const ZeroDuration := "0:00"

  /** All four date and time fields of the entry match their formats. */
  predicate ParsesCleanly(e: Entry)
  {
    ParseDate(e.dateIn).Some? && ParseTime(e.timeIn).Some?
    && ParseDate(e.dateOut).Some? && ParseTime(e.timeOut).Some?
  }

  /** One row through the datetime conversion and the reformatting of the four columns. */
  function Normalize(e: Entry): (r: Result<Record, Failure>)
    ensures r.Ok? <==> ParsesCleanly(e)
    ensures r.Err? ==> r.error == BadDateTime
    ensures r.Ok? ==> r.value.branch == e.branch && r.value.duration == e.duration && r.value.length == e.length
    ensures r.Ok? ==> r.value.stampIn == Stamp(ParseDate(e.dateIn).value, ParseTime(e.timeIn).value)
    ensures r.Ok? ==> r.value.stampOut == Stamp(ParseDate(e.dateOut).value, ParseTime(e.timeOut).value)
    ensures r.Ok? ==> r.value.dateIn == IsoDate(r.value.stampIn.date) && r.value.dateOut == IsoDate(r.value.stampOut.date)
    ensures r.Ok? ==> r.value.timeIn == ShowTime(r.value.stampIn.time) && r.value.timeOut == ShowTime(r.value.stampOut.time)
  {
    match (ParseDate(e.dateIn), ParseTime(e.timeIn), ParseDate(e.dateOut), ParseTime(e.timeOut))
    case (Some(dIn), Some(tIn), Some(dOut), Some(tOut)) =>
      Ok(Record(e.branch, ShowTime(tIn), IsoDate(dIn), ShowTime(tOut), IsoDate(dOut),
                e.duration, e.length, Stamp(dIn, tIn), Stamp(dOut, tOut)))
    case _ => Err(BadDateTime)
  }

  /**
   * A conversion applied to every row, failing as a whole when it fails on any
   * row, which is how a column-wise `pd.to_datetime` behaves.
   */
  function MapAll<A, B>(f: A -> Result<B, Failure>, xs: seq<A>): (r: Result<seq<B>, Failure>)
    ensures r.Err? <==> exists k :: 0 <= k < |xs| && f(xs[k]).Err?
    ensures r.Err? ==> exists k :: 0 <= k < |xs| && f(xs[k]) == Err(r.error)
    ensures r.Ok? ==> |r.value| == |xs|
    ensures r.Ok? ==> forall k :: 0 <= k < |xs| ==> f(xs[k]) == Ok(r.value[k])
  {
    if xs == [] then Ok([])
    else
      var init := xs[..|xs| - 1];
      assert forall k :: 0 <= k < |init| ==> init[k] == xs[k];
      match MapAll(f, init)
      case Err(e) => Err(e)
      case Ok(bs) =>
        match f(xs[|xs| - 1])
        case Err(e) => Err(e)
        case Ok(b) =>
          assert forall k :: 0 <= k < |init| ==> (bs + [b])[k] == bs[k];
          Ok(bs + [b])
  }

  /** Every row converted; fails when any row has a malformed date or time. */
  function NormalizeAll(entries: seq<Entry>): (r: Result<seq<Record>, Failure>)
    ensures r.Err? <==> exists k :: 0 <= k < |entries| && !ParsesCleanly(entries[k])
    ensures r.Err? ==> r.error == BadDateTime
    ensures r.Ok? ==> |r.value| == |entries|
    ensures r.Ok? ==> forall k :: 0 <= k < |entries| ==> Normalize(entries[k]) == Ok(r.value[k])
  {
    MapAll(Normalize, entries)
  }

  /** `df.loc[df['duration'] != '0:00']`: the rows kept, in their order. */
  function DropZeroDuration(rs: seq<Record>): (r: seq<Record>)
    ensures forall k :: 0 <= k < |r| ==> r[k].duration != ZeroDuration
    ensures forall x :: x in r <==> x in rs && x.duration != ZeroDuration
    ensures IsSubsequence(r, rs)
  {
    if rs == [] then []
    else
      var rest := DropZeroDuration(rs[1..]);
      if rs[0].duration == ZeroDuration then
        SubsequenceSkip(rest, rs);
        rest
      else
        assert ([rs[0]] + rest)[1..] == rest;
        [rs[0]] + rest
  }

  /** The filter keeps every row without a zero duration as often as it occurs, duplicates included. */
  lemma {:induction false} DropZeroDurationCounts(rs: seq<Record>)
    ensures forall x :: multiset(DropZeroDuration(rs))[x] == if x.duration == ZeroDuration then 0 else multiset(rs)[x]
  {
    if rs != [] {
      DropZeroDurationCounts(rs[1..]);
      assert rs == [rs[0]] + rs[1..];
    }
  }

  lemma {:induction false} SubsequenceSkip<T>(xs: seq<T>, ys: seq<T>)
    requires ys != [] && IsSubsequence(xs, ys[1..])
    ensures IsSubsequence(xs, ys)
    decreases |ys|, 0
  {
    if xs != [] && xs[0] == ys[0] {
      SubsequenceTail(xs, ys[1..]);
    }
  }

  lemma {:induction false} SubsequenceTail<T>(xs: seq<T>, ys: seq<T>)
    requires xs != [] && IsSubsequence(xs, ys)
    ensures IsSubsequence(xs[1..], ys)
    decreases |ys|, 1
  {
    if xs[0] != ys[0] {
      SubsequenceTail(xs, ys[1..]);
    }
    SubsequenceSkip(xs[1..], ys);
  }

  /** Ascending check-in moment. */
  predicate SortedByCheckIn(rs: seq<Record>)
  {
    forall i, j :: 0 <= i < j < |rs| ==> StampLe(rs[i].stampIn, rs[j].stampIn)
  }

  function Insert(x: Record, rs: seq<Record>): (r: seq<Record>)
    requires SortedByCheckIn(rs)
    ensures SortedByCheckIn(r)
    ensures multiset(r) == multiset(rs) + multiset{x}
  {
    if rs == [] then [x]
    else if StampLe(x.stampIn, rs[0].stampIn) then
      InsertFront(x, rs);
      [x] + rs
    else
      var tail := Insert(x, rs[1..]);
      InsertBehind(x, rs, tail);
      [rs[0]] + tail
  }

  lemma InsertFront(x: Record, rs: seq<Record>)
    requires SortedByCheckIn(rs) && rs != [] && StampLe(x.stampIn, rs[0].stampIn)
    ensures SortedByCheckIn([x] + rs)
  {
    forall j | 0 <= j < |rs| ensures StampLe(x.stampIn, rs[j].stampIn) {
      StampLeTotalPreorder(x.stampIn, rs[0].stampIn, rs[j].stampIn);
    }
  }

  lemma InsertBehind(x: Record, rs: seq<Record>, tail: seq<Record>)
    requires SortedByCheckIn(rs) && rs != [] && !StampLe(x.stampIn, rs[0].stampIn)
    requires SortedByCheckIn(tail) && multiset(tail) == multiset(rs[1..]) + multiset{x}
    ensures SortedByCheckIn([rs[0]] + tail)
    ensures multiset([rs[0]] + tail) == multiset(rs) + multiset{x}
  {
    assert rs == [rs[0]] + rs[1..];
    StampLeTotalPreorder(x.stampIn, rs[0].stampIn, x.stampIn);
    forall j | 0 <= j < |tail| ensures StampLe(rs[0].stampIn, tail[j].stampIn) {
      assert tail[j] in multiset(tail);
      if tail[j] != x {
        var k :| 1 <= k < |rs| && rs[k] == tail[j];
      }
    }
  }

  /**
   * `sort_values(by='datetime_in')`: ascending check-in moment, the same rows.
   * Rows with equal moments keep their order here; the source's sort does not
   * promise any order for them.
   */
  function SortByCheckIn(rs: seq<Record>): (r: seq<Record>)
    ensures SortedByCheckIn(r)
    ensures multiset(r) == multiset(rs)
  {
    if rs == [] then []
    else
      var rest := SortByCheckIn(rs[1..]);
      assert rs == [rs[0]] + rs[1..];
      Insert(rs[0], rest)
  }

  /**
   * The cleaned, filtered and sorted frame. It fails exactly when some entry has a
   * malformed date or time, even one whose duration is "0:00", because the
   * conversion runs before the filter.
   */
  function Prepare(entries: seq<Entry>): (r: Result<seq<Record>, Failure>)
    ensures r.Err? <==> exists k :: 0 <= k < |entries| && !ParsesCleanly(entries[k])
    ensures r.Ok? ==> SortedByCheckIn(r.value)
    ensures r.Ok? ==> forall k :: 0 <= k < |r.value| ==> r.value[k].duration != ZeroDuration
    ensures r.Ok? ==> multiset(r.value) == multiset(DropZeroDuration(NormalizeAll(entries).value))
  {
    match NormalizeAll(entries)
    case Err(e) => Err(e)
    case Ok(rs) =>
      var kept := DropZeroDuration(rs);
      var sorted := SortByCheckIn(kept);
      ReorderKeepsDurations(kept, sorted);
      Ok(sorted)
  }

  /** A reordering of records without a zero duration has none either. */
  lemma ReorderKeepsDurations(xs: seq<Record>, ys: seq<Record>)
    requires multiset(ys) == multiset(xs)
    requires forall k :: 0 <= k < |xs| ==> xs[k].duration != ZeroDuration
    ensures forall k :: 0 <= k < |ys| ==> ys[k].duration != ZeroDuration
  {
    forall k | 0 <= k < |ys| ensures ys[k].duration != ZeroDuration {
      assert ys[k] in multiset(xs);
    }
  }

  /** The position of the first occurrence of `x` in `xs`. */
  function FirstIndex<T(==)>(xs: seq<T>, x: T): (i: nat)
    requires x in xs
    ensures i < |xs| && xs[i] == x
    ensures forall k :: 0 <= k < i ==> xs[k] != x
  {
    if xs[0] == x then 0 else 1 + FirstIndex(xs[1..], x)
  }

  /** `pd.Series.unique()`: each value once, in order of first appearance. */
  function Unique(xs: seq<string>): (r: seq<string>)
    ensures forall x :: x in r <==> x in xs
    ensures forall i, j :: 0 <= i < j < |r| ==> r[i] != r[j]
    ensures forall i, j :: 0 <= i < j < |r| ==> FirstIndex(xs, r[i]) < FirstIndex(xs, r[j])
  {
    if xs == [] then []
    else
      var init, last := xs[..|xs| - 1], xs[|xs| - 1];
      var p := Unique(init);
      FirstIndexInInit(xs);
      if last in p then p else p + [last]
  }

  /** Values met before the last position keep their first index when the last is dropped. */
  lemma FirstIndexInInit(xs: seq<string>)
    requires xs != []
    ensures forall x :: x in xs[..|xs| - 1] ==>
      FirstIndex(xs, x) == FirstIndex(xs[..|xs| - 1], x) < |xs| - 1
    ensures xs[|xs| - 1] !in xs[..|xs| - 1] ==> FirstIndex(xs, xs[|xs| - 1]) == |xs| - 1
  {
    var init := xs[..|xs| - 1];
    forall x | x in init ensures FirstIndex(xs, x) == FirstIndex(init, x) < |xs| - 1 {
      var a, b := FirstIndex(xs, x), FirstIndex(init, x);
      assert xs[b] == x;
      assert a <= b && init[a] == x;
    }
  }

  /** The check-in dates of the frame, each once, in order of first appearance. */
  function UniqueDates(rs: seq<Record>): (r: seq<string>)
    ensures forall d :: d in r <==> exists k :: 0 <= k < |rs| && rs[k].dateIn == d
  {
    var dates := seq(|rs|, k requires 0 <= k < |rs| => rs[k].dateIn);
    assert forall k :: 0 <= k < |rs| ==> dates[k] == rs[k].dateIn;
    Unique(dates)
  }

  /** `df.loc[df['date_in'] == date]`: the rows of one check-in date, in frame order. */
  function Select(rs: seq<Record>, date: string): (r: seq<Record>)
    ensures forall k :: 0 <= k < |r| ==> r[k].dateIn == date
    ensures forall x :: x in r <==> x in rs && x.dateIn == date
    ensures IsSubsequence(r, rs)
  {
    if rs == [] then []
    else
      var rest := Select(rs[1..], date);
      if rs[0].dateIn == date then
        assert ([rs[0]] + rest)[1..] == rest;
        [rs[0]] + rest
      else
        SubsequenceSkip(rest, rs);
        rest
  }

  /** The selection keeps every row of the date as often as it occurs, duplicates included. */
  lemma {:induction false} SelectCounts(rs: seq<Record>, date: string)
    ensures forall x :: multiset(Select(rs, date))[x] == if x.dateIn == date then multiset(rs)[x] else 0
  {
    if rs != [] {
      SelectCounts(rs[1..], date);
      assert rs == [rs[0]] + rs[1..];
    }
  }

  /** Selecting one date keeps the check-in order of a sorted frame. */
  lemma {:induction false} SelectKeepsOrder(rs: seq<Record>, date: string)
    requires SortedByCheckIn(rs)
    ensures SortedByCheckIn(Select(rs, date))
  {
    if rs != [] {
      SelectKeepsOrder(rs[1..], date);
      var rest := Select(rs[1..], date);
      if rs[0].dateIn == date {
        assert forall k :: 0 <= k < |rest| ==> rest[k] in rs[1..];
      }
    }
  }
}
