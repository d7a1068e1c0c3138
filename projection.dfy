/** The column projection applied to a page's records before they are written
    out: for each declared column, the list of that field over all records,
    `None` where a record lacks it. */
module Projection {
  import opened Values

  /** The column schema declared for the store data. */
  const SteamColumns: seq<string> := [
    "type", "name", "steam_appid", "required_age", "is_free", "controller_support",
    "dlc", "detailed_description", "about_the_game", "short_description", "fullgame",
    "supported_languages", "header_image", "website", "pc_requirements", "mac_requirements",
    "linux_requirements", "legal_notice", "drm_notice", "ext_user_account_notice",
    "developers", "publishers", "demos", "price_overview", "packages", "package_groups",
    "platforms", "metacritic", "reviews", "categories", "genres", "screenshots",
    "movies", "recommendations", "achievements", "release_date", "support_info",
    "background", "content_descriptors"
  ]

  /** Python's `k in s` on strings: k occurs in s. */
  predicate Substring(k: string, s: string)
    decreases |s|
  {
    |k| <= |s| && (s[..|k|] == k || (|s| > 0 && Substring(k, s[1..])))
  }

  /** k occurs in s starting at position i. */
  predicate OccursAt(k: string, s: string, i: int) {
    0 <= i && i + |k| <= |s| && s[i..i + |k|] == k
  }

  /** `k in s` holds exactly when k occurs at some position of s. */
  lemma {:induction false} SubstringMeaning(k: string, s: string)
    ensures Substring(k, s) <==> exists i :: OccursAt(k, s, i)
    decreases |s|
  {
    if |k| <= |s| && |s| > 0 {
      SubstringMeaning(k, s[1..]);
      assert s[0..0 + |k|] == s[..|k|];
      if s[..|k|] == k {
        assert OccursAt(k, s, 0);
      }
      if Substring(k, s[1..]) {
        var i :| OccursAt(k, s[1..], i);
        assert s[i + 1..i + 1 + |k|] == s[1..][i..i + |k|];
        assert OccursAt(k, s, i + 1);
      }
      if exists i :: OccursAt(k, s, i) {
        var i :| OccursAt(k, s, i);
        if i > 0 {
          assert s[1..][i - 1..i - 1 + |k|] == s[i..i + |k|];
          assert OccursAt(k, s[1..], i - 1);
        }
      }
    } else if |k| <= |s| {
      assert s[0..0 + |k|] == s[..|k|];
      assert OccursAt(k, s, 0) <==> Substring(k, s);
    }
  }

  /** Whether `x[k] if k in x else None` raises on the record x: never for a
      dict; for a list or a string only when the membership test succeeds and
      the string subscript follows; always for a number, a boolean or None,
      which do not support `in`. Every such failure is a TypeError. */
  predicate CellRaises(x: Json, k: string) {
    match x
    case JObj(_) => false
    case JArr(items) => JStr(k) in items
    case JStr(s) => Substring(k, s)
    case _ => true
  }

  /** The value of `x[k] if k in x else None` when it does not raise. */
  function Cell(x: Json, k: string): Json {
    match x
    case JObj(fields) => if k in fields then fields[k] else JNull
    case _ => JNull
  }

  /** `[all_data[i][k] if k in all_data[i] else None for i in range(len(all_data))]`:
      one entry per record, in record order. */
  function Column(rows: seq<Json>, k: string): (r: Result<seq<Json>>)
    ensures r.Ok? <==> forall i :: 0 <= i < |rows| ==> !CellRaises(rows[i], k)
    ensures r.Err? ==> r.error == TypeError
    ensures r.Ok? ==>
      |r.value| == |rows| && forall i :: 0 <= i < |rows| ==> r.value[i] == Cell(rows[i], k)
  {
    if rows == [] then Ok([])
    else
      var last := rows[|rows| - 1];
      match Column(rows[..|rows| - 1], k)
      case Err(e) => Err(e)
      case Ok(prefix) => if CellRaises(last, k) then Err(TypeError) else Ok(prefix + [Cell(last, k)])
  }

  /** `{k: [...] for k in columns}` over the records `rows`: the keys are
      exactly the declared columns, each column has one entry per record, and
      entry i of column k is record i's field k, or null when the record lacks
      it; fields outside the columns are dropped. */
  function Project(columns: seq<string>, rows: seq<Json>): (r: Result<map<string, seq<Json>>>)
    ensures r.Ok? <==> forall k, i :: k in columns && 0 <= i < |rows| ==> !CellRaises(rows[i], k)
    ensures r.Err? ==> r.error == TypeError
    ensures r.Ok? ==> r.value.Keys == set k | k in columns
    ensures r.Ok? ==> forall k :: k in r.value ==>
      |r.value[k]| == |rows| && forall i :: 0 <= i < |rows| ==> r.value[k][i] == Cell(rows[i], k)
  {
    if columns == [] then Ok(map[])
    else
      var init, k := columns[..|columns| - 1], columns[|columns| - 1];
      assert columns == init + [k];
      var earlier := Project(init, rows);
      if earlier.Err? then
        assert forall c :: c in init ==> c in columns;
        Err(earlier.error)
      else
        var column := Column(rows, k);
        if column.Err? then
          assert k in columns;
          assert exists i :: 0 <= i < |rows| && CellRaises(rows[i], k);
          Err(column.error)
        else
          Ok(earlier.value[k := column.value])
  }

  /** Reading row i back out of the table gives the record's own value in
      every column it populates and null in every other column. */
  lemma ReadBackRow(columns: seq<string>, rows: seq<Json>, i: nat)
    requires i < |rows|
    requires forall j :: 0 <= j < |rows| ==> rows[j].JObj?
    ensures Project(columns, rows).Ok?
    ensures forall k :: k in columns ==>
      k in Project(columns, rows).value && i < |Project(columns, rows).value[k]|
      && Project(columns, rows).value[k][i] == if k in rows[i].fields then rows[i].fields[k] else JNull
  {
  }
}
