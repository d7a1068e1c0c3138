# Steam crawler batch driver in Dafny

This project models the batch driver of the Steam store crawler
(`crawler_and_preprocess/crawler.py`). It covers:

- `process_batches`: computes the batch boundaries with `np.arange(begin, end, batchsize)`
  and appends `end`. It then calls `get_app_data` once per batch, concatenates the
  records into `data_list` and counts `apps_written`. A remaining-time estimate is
  computed after each batch.
- `get_app_data`: walks the rows of `app_list[start:stop]` in order. It calls the
  parser on each row's `appid` and `name` and collects the records.
- `parse_steam_request`: reads the store reply for one app. On `success` the record
  is the reply's `data` payload. Otherwise it is the sparse record
  `{'name': name, 'steam_appid': appid}`.
- The page loop's use of these: `process_batches` is called with `begin=0`, `end=-1`
  and `batchsize=30`, and the records are projected onto the 39 declared
  `steam_columns`. A record that lacks a column gets `None` there.

Modules:

- `Values`: decoded JSON values, Python exceptions (`KeyError`, `TypeError`,
  `ZeroDivisionError`), `Result`, Python truthiness and dict subscripting.
- `Decimal`: `str(int)`, used for the reply key, and its parse-back.
- `Slicing`: Python slice bounds for `app_list[start:stop]`: negative bounds count
  from the end, out-of-range bounds are clipped.
- `Batches`: integer `np.arange`, the default end, the boundary array and its shape.
- `Driver`: `get_app_data` and `process_batches` as methods with loops, each proved
  against the specification functions `ParseRange` (one slice) and `RunAll` (all batches).
- `SteamParser`: `parse_steam_request` on a given decoded reply.
- `Projection`: the dict comprehension that builds the table columns.
- `Crawler`: the page loop's call, with `begin = 0`, the default end and batch size 30.

Modelling choices:

- The parser is a parameter of the driver. A parser call that raises is a call that
  returns `Err`. The exception propagates, so the run stops after that row.
- Each method also returns the row indices the parser was called on, in call order.
  These are the indices `get_app_data` prints as "Current index".
- `batchsize == 0` makes `np.arange` raise `ZeroDivisionError`. It is modelled as that error.

Notes on the code:

- The docstring of `process_batches` (`crawler.py:97`) says the end defaults to the end
  of `app_list`. The code sets it to `len(app_list) + 1` (`crawler.py:106-107`), and the
  model follows the code.
- The Python slice clips that end, so for `0 <= begin` and a positive batch size every
  row from `begin` on is still visited exactly once, in order (`Driver.DefaultEndCoversTail`).
- `process_batches` does not check `begin`. A negative `begin` is not counted from the end
  before the boundaries are computed, so each batch's slice is clipped on its own. The
  batches then need not cover `app_list[begin:end]`: with `begin = -3`, `end = 11`,
  batch size 5 and ten rows, the batches select nothing, rows 2..6 and rows 7..9, while
  `app_list[-3:11]` is rows 7..9 (`Batches.NegativeBeginRevisitsRows`). The coverage
  lemmas therefore require `0 <= begin`.
- When `0 <= begin <= len(app_list)` and `len(app_list) - begin` is a multiple of the batch size, the extra boundary adds
  one last batch `[len, len + 1)` that selects no rows (`Batches.DefaultEndAddsEmptyBatch`).
  With `end = len(app_list)` every batch would select at least one row
  (`Batches.LengthEndBatchesNonEmpty`).
- The empty batch still counts in `len(batches)`, so it enters the remaining-time
  estimate. The records are not affected.

## Model

| member | source | states |
|---|---|---|
| Values.Truthy | crawler_and_preprocess/crawler.py:174 | Python truthiness of a decoded value, as `if json_app_data['success']:` tests it. |
| Values.FalsyValues | crawler_and_preprocess/crawler.py:174 | The falsy values are exactly None, False, 0, the empty string, the empty list and the empty dict. |
| Values.Subscript | crawler_and_preprocess/crawler.py:172-175 | `x[k]` succeeds exactly when x is a dict holding k, and then gives that value. Otherwise it raises KeyError(k) on a dict and TypeError on anything else. |
| Decimal.NatToString | crawler_and_preprocess/crawler.py:172 | `str(n)` of a natural number is a non-empty string of decimal digits with no leading zero (except for 0 itself). |
| Decimal.IntToString | crawler_and_preprocess/crawler.py:172 | `str(n)` is non-empty and starts with '-' exactly when n is negative. |
| Decimal.NatRoundTrip | crawler_and_preprocess/crawler.py:172 | Reading the digits of `str(n)` back gives n. |
| Decimal.IntRoundTrip | crawler_and_preprocess/crawler.py:172 | Parsing `str(n)` back gives n, for every integer including negatives. |
| Decimal.DistinctIdsDistinctKeys | crawler_and_preprocess/crawler.py:172 | Different app ids select different keys of the store reply. |
| Slicing.Clip | crawler_and_preprocess/crawler.py:68 | A slice bound, after a negative one is counted from the end, lies in [0, len]. |
| Slicing.Window | crawler_and_preprocess/crawler.py:68 | The rows `app_list[start:stop]` form an index range lo <= hi <= len, which is empty when the clipped start is not below the clipped stop. |
| Slicing.WindowOfNonNegative | crawler_and_preprocess/crawler.py:68 | For 0 <= start <= stop the slice is the rows [min(start, len), min(stop, len)). |
| Batches.Arange | crawler_and_preprocess/crawler.py:110 | `np.arange(start, stop, step)` has ceil((stop - start) / step) elements, and none when that is not positive. |
| Batches.ArangeLenStep | crawler_and_preprocess/crawler.py:110 | Removing the first value of a non-empty progression lowers its length by exactly one; an empty progression has length 0. |
| Batches.ArangeElements | crawler_and_preprocess/crawler.py:110 | Element i of `np.arange(start, stop, step)` is start + i * step. |
| Batches.ArangePositiveStep | crawler_and_preprocess/crawler.py:110 | With a positive step the progression is empty iff start >= stop. All its values lie in [start, stop), and the next value would reach stop. |
| Batches.EffectiveEnd | crawler_and_preprocess/crawler.py:106-107 | An `end` of -1 becomes `len(app_list) + 1`, past the last row; any other `end` is kept unchanged. |
| Batches.DefaultEndSlicesToEnd | crawler_and_preprocess/crawler.py:106-107 | Slicing from any start up to the default end selects the same rows as slicing up to `len(app_list)`. |
| Batches.Boundaries | crawler_and_preprocess/crawler.py:110-111 | The boundary array has one more element than the progression and ends with `end`. |
| Batches.BoundariesShape | crawler_and_preprocess/crawler.py:106-111 | For begin < end and a positive batch size: the boundaries start at begin and end at end, and strictly increase. Every gap is batchsize except the last, which is between 1 and batchsize. |
| Batches.BatchCount | crawler_and_preprocess/crawler.py:110-117 | The loop runs `len(batches) - 1` = ceil((end - begin) / batchsize) batches, and none when begin >= end. |
| Batches.BoundariesSorted | crawler_and_preprocess/crawler.py:110-111 | The boundary array is sorted. |
| Batches.BatchOfIndex | crawler_and_preprocess/crawler.py:117-121 | An index j in [begin, end) lies in batch (j - begin) / batchsize. |
| Batches.BatchesPartition | crawler_and_preprocess/crawler.py:117-121 | Every index in [begin, end) lies in exactly one batch [batches[i], batches[i+1]). |
| Batches.DefaultEndAddsEmptyBatch | crawler_and_preprocess/crawler.py:106-111 | For 0 <= begin <= len, a batch size of at least 1, end = -1 and len - begin a multiple of batchsize, there are (len - begin) / batchsize + 1 batches. The last is [len, len + 1), which selects no rows. |
| Batches.LengthEndBatchesNonEmpty | crawler_and_preprocess/crawler.py:106-111 | With end = len, 0 <= begin < len and a batch size of at least 1, every batch selects at least one row. |
| Batches.NegativeBeginRevisitsRows | crawler_and_preprocess/crawler.py:106-123 | With begin -3, end 11 and batch size 5 on ten rows the boundaries are [-3, 2, 7, 11] and the batches select nothing, rows 2..6 and rows 7..9, while `app_list[-3:11]` is rows 7..9 only. |
| Driver.ParseRangeMeaning | crawler_and_preprocess/crawler.py:68-80 | Parsing rows [lo, hi) calls the parser on lo, lo+1, ... in order. It succeeds iff no call raises, and then gives exactly one record per row, in row order. If a call raises, it stops right after the first such row, with that row's exception. |
| Driver.ParseRangeSplit | crawler_and_preprocess/crawler.py:68-80 | Parsing [lo, hi) equals parsing [lo, mid) and then [mid, hi), with records and visited rows concatenated. |
| Driver.GetAppData | crawler_and_preprocess/crawler.py:60-80 | `get_app_data(start, stop)` returns the records and calls exactly as the parse of the clipped slice `app_list[start:stop]`, including the exception when one is raised. |
| Driver.RunBatchesStopsAtError | crawler_and_preprocess/crawler.py:117-133 | After a batch raises, no later batch changes the outcome. |
| Driver.RunBatchesPrefix | crawler_and_preprocess/crawler.py:117-133 | For 0 <= begin < end and a batch size of at least 1, the first k batches, concatenated, parse exactly the rows of `app_list[begin:batches[k]]`. |
| Driver.BatchesCoverWindow | crawler_and_preprocess/crawler.py:106-133 | For 0 <= begin and a batch size of at least 1, `data_list` is the concatenation of the batches. It equals the parser mapped in order over `app_list[begin:end]`, each row once. When begin >= end it is empty and no row is visited. |
| Driver.DefaultEndCoversTail | crawler_and_preprocess/crawler.py:106-133 | For 0 <= begin and a batch size of at least 1, with end = -1 every row from begin to the end of `app_list` is parsed exactly once, in order. |
| Driver.ProcessBatches | crawler_and_preprocess/crawler.py:83-161 | The result and calls equal running all batches of the boundary array in order. `apps_written == len(data_list)`. The remaining-batch factor after batch i is `len(batches) - i - 2`. Batch size 0 raises ZeroDivisionError before any row is visited. |
| SteamParser.ParseSteamRequest | crawler_and_preprocess/crawler.py:171-179 | A reply without the `str(appid)` entry, or an entry without `success`, raises. A truthy `success` gives the `data` payload unchanged, or KeyError if it is missing. Otherwise the record has exactly the keys `name` and `steam_appid`, holding the given name and id. |
| SteamParser.SteamRequestParser | crawler_and_preprocess/crawler.py:224 | The parser handed to `process_batches`: `parse_steam_request` applied to each app id's reply. |
| SteamParser.FailureGivesFallback | crawler_and_preprocess/crawler.py:174-177 | When the reply reports failure for the app, the record is `{'name': name, 'steam_appid': appid}`. |
| Projection.Substring | crawler_and_preprocess/crawler.py:238 | Python's `k in s` for a string record s: k occurs in s. |
| Projection.SubstringMeaning | crawler_and_preprocess/crawler.py:238 | `k in s` holds exactly when k occurs at some position of s. |
| Projection.CellRaises | crawler_and_preprocess/crawler.py:238 | `x[k] if k in x else None` raises TypeError exactly when x is a list holding the string k, a string containing k, or a number, boolean or None, which do not support `in`; it never raises on a dict. |
| Projection.Cell | crawler_and_preprocess/crawler.py:238 | When the lookup does not raise, its value is field k of a dict record holding k, and None for every other record. |
| Projection.Column | crawler_and_preprocess/crawler.py:238 | A column has one entry per record, in record order: the record's field, or None when the record lacks it. It raises TypeError exactly when some record does not support the lookup. |
| Projection.Project | crawler_and_preprocess/crawler.py:238 | The table's keys are exactly the declared columns and each column has `len(all_data)` entries. Entry i is record i's field or None, and fields outside the columns are dropped. It raises TypeError exactly when some lookup does. |
| Projection.ReadBackRow | crawler_and_preprocess/crawler.py:238 | For dict records, reading row i back from the table gives the record's own value in each column it has, and None in the others. |
| Crawler.CrawlPage | crawler_and_preprocess/crawler.py:223-234 | The page loop's call: all batches of `process_batches` with the store parser, begin 0, end -1 and batch size 30. |
| Crawler.CrawlPageVisitsEveryApp | crawler_and_preprocess/crawler.py:223-234 | The page loop's call, with begin 0, end -1 and batch size 30, parses every app of the page exactly once, in list order. |
| Crawler.FallbackRange | crawler_and_preprocess/crawler.py:68-80 | Parsing apps whose replies all report failure succeeds, with each app's placeholder record in list order. |
| Crawler.FailedLookupsGiveFallbacks | crawler_and_preprocess/crawler.py:223-234 | On a page where every reply reports failure, `data_list` holds one placeholder record per app, in list order. |
| Crawler.FallbackTable | crawler_and_preprocess/crawler.py:238 | Projecting placeholder records succeeds. It puts the names in `name`, the ids in `steam_appid` and None in every other column. |
| Crawler.FailedPageTable | crawler_and_preprocess/crawler.py:223-238 | On such a page the written table has the app names, the ids and None elsewhere, one row per app. |

## Left out

- `get_request` (`crawler.py:24-58`), the HTTP call with its retries and waits: it is network I/O. Each app's decoded reply is an input instead.
- `time.sleep`, `print`, `tqdm` and the countdown before writing: timing and console output only.
- The wall-clock timing, the mean batch time and the `timedelta` values of the remaining-time estimate: clock reads and floating point. The model keeps only the integer factor `len(batches) - i - 2`.
- Writing to CSV and to the index file: file output. The writes at lines 126-143 are commented out in the code; the file written at line 240 is out of scope.
- Building `app_list` from the SteamSpy reply and sorting it by `appid` (line 218): pandas. The model takes `app_list` as a given sequence of (appid, name) rows.
- The DataFrame built from the table: the projected table is modelled, its order of columns and the CSV write are not, since Dafny maps are unordered.
- Command-line parsing (lines 183-190) and the loop over pages with its requests and DataFrames (lines 209-222 and 235-240): process-level I/O.
- JSON numbers that are not integers: floating point; `Json` numbers are integers.
- numpy `int64` overflow in `np.arange` and `np.append`: boundaries are unbounded integers.
- Driver.GetAppData: the slice of a DataFrame keeps the original index labels; after `reset_index(drop=True)` these are the positions, which is what the model uses.
