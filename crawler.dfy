/** How the page loop uses the pieces: `process_batches` is called with the
    store parser, begin 0, the default end and batches of 30, and its records
    are projected onto the declared columns. */
module Crawler {
  import opened Values
  import opened Slicing
  import opened Batches
  import opened Driver
  import opened SteamParser
  import opened Projection

  /** Batch size used by the page loop. */
  const PageBatchSize: int := 30

  /** All batches the page loop runs over one page's app list. */
  function CrawlPage(responses: int -> Json, appList: seq<App>): Outcome<Json> {
    RunAll(SteamRequestParser(responses), appList, Boundaries(0, EffectiveEnd(-1, |appList|), PageBatchSize))
  }

  /** The page loop's call visits every app of the page once, in list order. */
  lemma CrawlPageVisitsEveryApp(responses: int -> Json, appList: seq<App>)
    ensures CrawlPage(responses, appList) == ParseRange(SteamRequestParser(responses), appList, 0, |appList|)
  {
    DefaultEndCoversTail(SteamRequestParser(responses), appList, 0, PageBatchSize);
  }

  /** Parsing rows whose replies all report failure gives their placeholders. */
  lemma FallbackRange(responses: int -> Json, appList: seq<App>)
    requires forall j :: 0 <= j < |appList| ==> ReportsFailure(appList[j].appid, responses(appList[j].appid))
    ensures var o := ParseRange(SteamRequestParser(responses), appList, 0, |appList|);
      o.result.Ok? && |o.result.value| == |appList|
      && forall j :: 0 <= j < |appList| ==> o.result.value[j] == FallbackRecord(appList[j].appid, appList[j].name)
  {
    var parser := SteamRequestParser(responses);
    forall j | 0 <= j < |appList|
      ensures Call(parser, appList[j]) == Ok(FallbackRecord(appList[j].appid, appList[j].name))
    {
      FailureGivesFallback(appList[j].appid, appList[j].name, responses(appList[j].appid));
    }
    ParseRangeMeaning(parser, appList, 0, |appList|);
  }

  /** A page on which the store reports failure for every app yields one
      placeholder record per app, in list order. */
  lemma FailedLookupsGiveFallbacks(responses: int -> Json, appList: seq<App>)
    requires forall j :: 0 <= j < |appList| ==> ReportsFailure(appList[j].appid, responses(appList[j].appid))
    ensures CrawlPage(responses, appList).result.Ok?
    ensures |CrawlPage(responses, appList).result.value| == |appList|
    ensures forall j :: 0 <= j < |appList| ==>
      CrawlPage(responses, appList).result.value[j] == FallbackRecord(appList[j].appid, appList[j].name)
  {
    FallbackRange(responses, appList);
    CrawlPageVisitsEveryApp(responses, appList);
  }

  /** Projecting placeholder records keeps each app's name and id and puts
      null in every other column. */
  lemma FallbackTable(columns: seq<string>, records: seq<Json>, appList: seq<App>)
    requires |records| == |appList|
    requires forall j :: 0 <= j < |appList| ==> records[j] == FallbackRecord(appList[j].appid, appList[j].name)
    ensures Project(columns, records).Ok?
    ensures forall k, j :: k in columns && 0 <= j < |appList| ==>
      Project(columns, records).value[k][j] ==
        if k == "name" then JStr(appList[j].name)
        else if k == "steam_appid" then JNum(appList[j].appid)
        else JNull
  {
  }

  /** On a page where the store reports failure for every app, the written
      table has the app names in `name`, the ids in `steam_appid`, and null in
      every other declared column. */
  lemma FailedPageTable(responses: int -> Json, appList: seq<App>)
    requires forall j :: 0 <= j < |appList| ==> ReportsFailure(appList[j].appid, responses(appList[j].appid))
    ensures CrawlPage(responses, appList).result.Ok?
    ensures |CrawlPage(responses, appList).result.value| == |appList|
    ensures Project(SteamColumns, CrawlPage(responses, appList).result.value).Ok?
    ensures forall k, j :: k in SteamColumns && 0 <= j < |appList| ==>
      Project(SteamColumns, CrawlPage(responses, appList).result.value).value[k][j] ==
        if k == "name" then JStr(appList[j].name)
        else if k == "steam_appid" then JNum(appList[j].appid)
        else JNull
  {
    FailedLookupsGiveFallbacks(responses, appList);
    FallbackTable(SteamColumns, CrawlPage(responses, appList).result.value, appList);
  }
}
