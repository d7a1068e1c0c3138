/** The batch driver: `get_app_data`, which runs a parser over a slice of the
    app list, and `process_batches`, which runs it batch after batch and
    accumulates the records. The parser is a parameter; a parser that raises
    is modelled as one returning `Err`, and the exception ends the run. */
module Driver {
  import opened Values
  import opened Slicing
  import opened Batches

  /** One row of `app_list`: the two columns the driver reads. */
  datatype App = App(appid: int, name: string)

  /** What a run has produced: the accumulated records, or the exception that
      stopped it, and the row indices the parser was called on, in call order. */
  datatype Outcome<R> = Outcome(result: Result<seq<R>>, visited: seq<nat>)

  /** `parser(row['appid'], row['name'])`. */
  function Call<R>(parser: (int, string) -> Result<R>, row: App): Result<R> {
    parser(row.appid, row.name)
  }

  /** One pass of the loop body of `get_app_data` on row j: call the parser and
      append its record. Nothing happens once an exception has been raised. */
  function Step<R>(parser: (int, string) -> Result<R>, appList: seq<App>, o: Outcome<R>, j: nat): Outcome<R>
    requires j < |appList|
  {
    if o.result.Err? then o
    else match Call(parser, appList[j])
      case Ok(x) => Outcome(Ok(o.result.value + [x]), o.visited + [j])
      case Err(e) => Outcome(Err(e), o.visited + [j])
  }

  /** The rows lo .. hi-1 run through the parser in increasing index order,
      stopping at the first call that raises. */
  function ParseRange<R>(parser: (int, string) -> Result<R>, appList: seq<App>, lo: nat, hi: nat): Outcome<R>
    requires lo <= hi <= |appList|
    decreases hi - lo
  {
    if hi == lo then Outcome(Ok([]), [])
    else Step(parser, appList, ParseRange(parser, appList, lo, hi - 1), hi - 1)
  }

  /** What parsing the rows [lo, hi) yields. The parser is called on lo, lo+1, ...
      in this order. If no call raises, there is exactly one record per row, in
      row order, and every row was visited once; otherwise the run stopped right
      after the first row whose call raised, with that exception. */
  lemma {:induction false} ParseRangeMeaning<R>(parser: (int, string) -> Result<R>, appList: seq<App>, lo: nat, hi: nat)
    requires lo <= hi <= |appList|
    ensures var o := ParseRange(parser, appList, lo, hi);
      lo + |o.visited| <= hi
      && (forall k :: 0 <= k < |o.visited| ==> o.visited[k] == lo + k)
      && (o.result.Ok? <==> forall j :: lo <= j < hi ==> Call(parser, appList[j]).Ok?)
      && (o.result.Ok? ==>
            |o.visited| == hi - lo && |o.result.value| == hi - lo
            && forall k :: 0 <= k < hi - lo ==> o.result.value[k] == Call(parser, appList[lo + k]).value)
      && (o.result.Err? ==>
            |o.visited| >= 1
            && Call(parser, appList[lo + |o.visited| - 1]) == Err(o.result.error)
            && forall j :: lo <= j < lo + |o.visited| - 1 ==> Call(parser, appList[j]).Ok?)
    decreases hi - lo
  {
    if hi > lo {
      ParseRangeMeaning(parser, appList, lo, hi - 1);
    }
  }

  /** Running `first` and then `second`: the records are concatenated, unless
      an exception stops the run. */
  function Then<R>(first: Outcome<R>, second: Outcome<R>): Outcome<R> {
    if first.result.Err? then first
    else Outcome(
      match second.result
      case Ok(ys) => Ok(first.result.value + ys)
      case Err(e) => Err(e),
      first.visited + second.visited)
  }

  lemma ThenEmptyLeft<R>(o: Outcome<R>)
    ensures Then(Outcome(Ok([]), []), o) == o
  {
    match o.result
    case Ok(ys) => assert [] + ys == ys;
    case Err(_) =>
    assert [] + o.visited == o.visited;
  }

  lemma StepThen<R>(parser: (int, string) -> Result<R>, appList: seq<App>, a: Outcome<R>, b: Outcome<R>, j: nat)
    requires j < |appList|
    ensures Step(parser, appList, Then(a, b), j) == Then(a, Step(parser, appList, b, j))
  {
    if a.result.Ok? && b.result.Ok? {
      assert a.visited + b.visited + [j] == a.visited + (b.visited + [j]);
      match Call(parser, appList[j])
      case Ok(x) =>
        assert a.result.value + b.result.value + [x] == a.result.value + (b.result.value + [x]);
      case Err(_) =>
    }
  }

  /** Parsing [lo, hi) is parsing [lo, mid) and then [mid, hi). */
  lemma {:induction false} ParseRangeSplit<R>(parser: (int, string) -> Result<R>, appList: seq<App>, lo: nat, mid: nat, hi: nat)
    requires lo <= mid <= hi <= |appList|
    ensures ParseRange(parser, appList, lo, hi)
         == Then(ParseRange(parser, appList, lo, mid), ParseRange(parser, appList, mid, hi))
    decreases hi - mid
  {
    var a := ParseRange(parser, appList, lo, mid);
    if hi == mid {
      if a.result.Ok? {
        assert a.result.value + [] == a.result.value;
        assert a.visited + [] == a.visited;
      }
    } else {
      ParseRangeSplit(parser, appList, lo, mid, hi - 1);
      StepThen(parser, appList, a, ParseRange(parser, appList, mid, hi - 1), hi - 1);
    }
  }

  /** `get_app_data(start, stop, parser, pause)` with `app_list` passed
      explicitly: the parser is called on the rows of `app_list[start:stop]`
      (Python slice bounds, clipped to the list) in increasing index order, and
      the records come back in that order. */
  method GetAppData<R>(parser: (int, string) -> Result<R>, appList: seq<App>, start: int, stop: int)
    returns (appData: Result<seq<R>>, visited: seq<nat>)
    ensures var w := Window(|appList|, start, stop);
      Outcome(appData, visited) == ParseRange(parser, appList, w.0, w.1)
  {
    var w := Window(|appList|, start, stop);
    var lo, hi := w.0, w.1;
    var records: seq<R> := [];
    visited := [];
    var index := lo;
    while index < hi
      invariant lo <= index <= hi
      invariant ParseRange(parser, appList, lo, index) == Outcome(Ok(records), visited)
    {
      var row := appList[index];
      var data := parser(row.appid, row.name);
      visited := visited + [index];
      if data.Err? {
        appData := Err(data.error);
        ParseRangeSplit(parser, appList, lo, index + 1, hi);
        return;
      }
      records := records + [data.value];
      index := index + 1;
    }
    appData := Ok(records);
  }

  /** Batch i of `bounds`: `get_app_data(bounds[i], bounds[i+1], ...)`. */
  function Batch<R>(parser: (int, string) -> Result<R>, appList: seq<App>, bounds: seq<int>, i: nat): Outcome<R>
    requires i + 1 < |bounds|
  {
    var w := Window(|appList|, bounds[i], bounds[i + 1]);
    ParseRange(parser, appList, w.0, w.1)
  }

  /** The first k batches run in order, each batch's records appended to
      `data_list`, stopping at the first exception. */
  function RunBatches<R>(parser: (int, string) -> Result<R>, appList: seq<App>, bounds: seq<int>, k: nat): Outcome<R>
    requires k < |bounds|
  {
    if k == 0 then Outcome(Ok([]), [])
    else Then(RunBatches(parser, appList, bounds, k - 1), Batch(parser, appList, bounds, k - 1))
  }

  /** Once a batch has raised, later batches do not run. */
  lemma {:induction false} RunBatchesStopsAtError<R>(parser: (int, string) -> Result<R>, appList: seq<App>, bounds: seq<int>, k: nat, k': nat)
    requires k <= k' < |bounds|
    requires RunBatches(parser, appList, bounds, k).result.Err?
    ensures RunBatches(parser, appList, bounds, k') == RunBatches(parser, appList, bounds, k)
    decreases k' - k
  {
    if k' > k {
      RunBatchesStopsAtError(parser, appList, bounds, k, k' - 1);
    }
  }

  /** With a non-negative begin and a positive batch size, the first k
      batches together parse the rows of `app_list[begin:b[k]]`. */
  lemma {:induction false} RunBatchesPrefix<R>(parser: (int, string) -> Result<R>, appList: seq<App>, begin: int, end: int, batchsize: int, k: nat)
    requires 0 <= begin < end && batchsize >= 1
    requires 1 <= k < |Boundaries(begin, end, batchsize)|
    ensures var b := Boundaries(begin, end, batchsize);
      RunBatches(parser, appList, b, k)
        == ParseRange(parser, appList, Window(|appList|, begin, b[k]).0, Window(|appList|, begin, b[k]).1)
  {
    var b := Boundaries(begin, end, batchsize);
    var len := |appList|;
    BoundariesShape(begin, end, batchsize);
    ArangePositiveStep(begin, end, batchsize);
    assert begin <= b[k - 1] < b[k];
    WindowOfNonNegative(len, b[k - 1], b[k]);
    WindowOfNonNegative(len, begin, b[k]);
    WindowOfNonNegative(len, begin, b[k - 1]);
    if k == 1 {
      ThenEmptyLeft(Batch(parser, appList, b, 0));
    } else {
      RunBatchesPrefix(parser, appList, begin, end, batchsize, k - 1);
      ParseRangeSplit(parser, appList, Min(begin, len), Min(b[k - 1], len), Min(b[k], len));
    }
  }

  /** All batches of `bounds`, in order. */
  function RunAll<R>(parser: (int, string) -> Result<R>, appList: seq<App>, bounds: seq<int>): Outcome<R>
    requires |bounds| >= 1
  {
    RunBatches(parser, appList, bounds, |bounds| - 1)
  }

  /** All batches together parse the rows of `app_list[begin:end]`, that is the
      clipped window [min(begin, len), min(end, len)), each row once and in
      order; no batch runs when begin >= end. */
  lemma BatchesCoverWindow<R>(parser: (int, string) -> Result<R>, appList: seq<App>, begin: int, end: int, batchsize: int)
    requires 0 <= begin && batchsize >= 1
    ensures begin < end ==>
      Window(|appList|, begin, end) == (Min(begin, |appList|), Min(end, |appList|))
      && RunAll(parser, appList, Boundaries(begin, end, batchsize))
         == ParseRange(parser, appList, Window(|appList|, begin, end).0, Window(|appList|, begin, end).1)
    ensures begin >= end ==> RunAll(parser, appList, Boundaries(begin, end, batchsize)) == Outcome(Ok([]), [])
  {
    var b := Boundaries(begin, end, batchsize);
    BatchCount(begin, end, batchsize);
    if begin < end {
      BoundariesShape(begin, end, batchsize);
      RunBatchesPrefix(parser, appList, begin, end, batchsize, |b| - 1);
      WindowOfNonNegative(|appList|, begin, end);
    }
  }

  /** With the default end (-1, i.e. `len(app_list) + 1`), all batches together
      parse every row from begin to the end of the list exactly once, in order. */
  lemma DefaultEndCoversTail<R>(parser: (int, string) -> Result<R>, appList: seq<App>, begin: int, batchsize: int)
    requires 0 <= begin && batchsize >= 1
    ensures RunAll(parser, appList, Boundaries(begin, EffectiveEnd(-1, |appList|), batchsize))
         == ParseRange(parser, appList, Min(begin, |appList|), |appList|)
  {
    BatchesCoverWindow(parser, appList, begin, EffectiveEnd(-1, |appList|), batchsize);
  }

  /** `process_batches(parser, app_list, ..., begin, end, batchsize, pause)`.
      Besides the accumulated `data_list` it yields the rows visited, the final
      `apps_written`, and per finished batch i the integer factor
      `len(batches) - i - 2` of the remaining-time estimate: the number of
      batches still to run after batch i. */
  method ProcessBatches<R>(parser: (int, string) -> Result<R>, appList: seq<App>, begin: int, end: int, batchsize: int)
    returns (dataList: Result<seq<R>>, visited: seq<nat>, appsWritten: nat, remaining: seq<int>)
    ensures batchsize == 0 ==> dataList == Err(ZeroDivisionError) && visited == [] && remaining == []
    ensures batchsize != 0 ==>
      Outcome(dataList, visited) == RunAll(parser, appList, Boundaries(begin, EffectiveEnd(end, |appList|), batchsize))
    ensures batchsize != 0 && dataList.Ok? ==> |remaining| == ArangeLen(begin, EffectiveEnd(end, |appList|), batchsize)
    ensures batchsize != 0 && dataList.Err? ==> |remaining| < ArangeLen(begin, EffectiveEnd(end, |appList|), batchsize)
    ensures batchsize != 0 ==>
      forall i :: 0 <= i < |remaining| ==> remaining[i] == ArangeLen(begin, EffectiveEnd(end, |appList|), batchsize) - (i + 1)
    ensures dataList.Ok? ==> appsWritten == |dataList.value|
  {
    if batchsize == 0 {
      return Err(ZeroDivisionError), [], 0, [];
    }
    var stopAt := EffectiveEnd(end, |appList|);
    var batches := Boundaries(begin, stopAt, batchsize);
    appsWritten := 0;
    var records: seq<R> := [];
    visited := [];
    remaining := [];
    var i := 0;
    while i < |batches| - 1
      invariant 0 <= i <= |batches| - 1
      invariant RunBatches(parser, appList, batches, i) == Outcome(Ok(records), visited)
      invariant appsWritten == |records|
      invariant |remaining| == i
      invariant forall k :: 0 <= k < i ==> remaining[k] == (|batches| - 1) - (k + 1)
    {
      var start, stop := batches[i], batches[i + 1];
      var appData, seen := GetAppData(parser, appList, start, stop);
      assert RunBatches(parser, appList, batches, i + 1)
          == Then(Outcome(Ok(records), visited), Outcome(appData, seen));
      visited := visited + seen;
      if appData.Err? {
        dataList := Err(appData.error);
        assert RunBatches(parser, appList, batches, i + 1) == Outcome(dataList, visited);
        RunBatchesStopsAtError(parser, appList, batches, i + 1, |batches| - 1);
        assert RunAll(parser, appList, batches) == Outcome(dataList, visited);
        return;
      }
      records := records + appData.value;
      appsWritten := appsWritten + |appData.value|;
      remaining := remaining + [|batches| - i - 2];
      i := i + 1;
    }
    dataList := Ok(records);
    assert RunAll(parser, appList, batches) == Outcome(dataList, visited);
  }
}
