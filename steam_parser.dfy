/** `parse_steam_request`: shaping the store API's reply for one app into a
    record. The HTTP request is not modelled; the decoded reply body is an input. */
module SteamParser {
  import opened Values
  import opened Decimal

  /** The sparse record used when the store reports no data for an app. */
  function FallbackRecord(appid: int, name: string): Json {
    JObj(map["name" := JStr(name), "steam_appid" := JNum(appid)])
  }

  /** `parse_steam_request(appid, name)` where `response` is what
      `get_request` returned. The reply's entry for `str(appid)` decides:
      when its `success` is truthy the record is its `data` payload, unchanged;
      otherwise it is exactly `{'name': name, 'steam_appid': appid}`. A missing
      key raises KeyError and subscripting a non-dict raises TypeError. */
  function ParseSteamRequest(appid: int, name: string, response: Json): (r: Result<Json>)
    ensures !Has(response, IntToString(appid)) ==>
      r == Err(if response.JObj? then KeyError(IntToString(appid)) else TypeError)
    ensures Has(response, IntToString(appid)) ==>
      var entry := response.fields[IntToString(appid)];
      (!Has(entry, "success") ==> r == Err(if entry.JObj? then KeyError("success") else TypeError))
      && (Has(entry, "success") && Truthy(entry.fields["success"]) ==>
            r == if "data" in entry.fields then Ok(entry.fields["data"]) else Err(KeyError("data")))
      && (Has(entry, "success") && !Truthy(entry.fields["success"]) ==>
            r.Ok? && r.value.JObj? && r.value.fields.Keys == {"name", "steam_appid"}
            && r.value.fields["name"] == JStr(name) && r.value.fields["steam_appid"] == JNum(appid))
  {
    match Subscript(response, IntToString(appid))
    case Err(e) => Err(e)
    case Ok(entry) =>
      match Subscript(entry, "success")
      case Err(e) => Err(e)
      case Ok(success) =>
        if Truthy(success) then Subscript(entry, "data") else Ok(FallbackRecord(appid, name))
  }

  /** The parser handed to `process_batches`, given the reply the store API
      sends for each app id. */
  function SteamRequestParser(responses: int -> Json): (int, string) -> Result<Json> {
    (appid: int, name: string) => ParseSteamRequest(appid, name, responses(appid))
  }

  /** The store reply for `appid` reports failure for that app. */
  predicate ReportsFailure(appid: int, response: Json) {
    Has(response, IntToString(appid))
    && Has(response.fields[IntToString(appid)], "success")
    && !Truthy(response.fields[IntToString(appid)].fields["success"])
  }

  /** When the store reports failure for the app, the record is the placeholder. */
  lemma FailureGivesFallback(appid: int, name: string, response: Json)
    requires ReportsFailure(appid, response)
    ensures ParseSteamRequest(appid, name, response) == Ok(FallbackRecord(appid, name))
  {
  }
}
