# Pipedrive-to-BigQuery ETL, modelled in Dafny

This project models the one script of the repository,
`backend/src/etl/pipedriveToBigQuery.ts`, which copies every deal of a
Pipedrive CRM account into the BigQuery table `deals_raw`. The script has two
pieces of logic, and the model has one module for each. A further module holds
the JavaScript values they work on.

- `JsValues` (`js_values.dfy`) models JavaScript values as a datatype. It also
  models truthiness (`Truthy`), which drives `||` and `?:`. An object is a list
  of properties in insertion order. `JSON.stringify` lists integer-like keys
  first, and since `stringify` is opaque the model fixes neither order.
  Property reads are modelled by `Member`, which covers optional chaining as well.
- `Cleaning` (`cleaning.dfy`) is the row cleaner, the `rows.map(...)` inside
  `insertDeals`. It turns one raw deal into one flat row.
  `new Date(...)` and `JSON.stringify` are opaque functions, bundled in `Builtins`.
- `Etl` (`etl.dfy`) covers three things. It models the success check of
  `fetchDeals`. It models the error policy of `insertDeals`. And it models the
  `runETL` pagination loop.
  The remote collection is a finite sequence of records. Next to it, `success`
  gives the `success` field of the response to each fetch call. That field can
  be any value, `undefined` included.
  The warehouse is the set `rejectedCalls`, listing the bulk inserts that throw.
  `RunEtl` returns four things: the exit status, the number of fetches, the
  final offset `start`, and the log of insert calls. Each logged call holds the rows it handed over and
  says whether the table kept them.
- `Wrappers` (`wrappers.dfy`) holds `Option` and `Result`.

The loop is checked against independent reference definitions:

- `Page(records, k)`: the `k`-th block of 500 records.
- `Rounds(n) = n / 500 + 1`: the number of fetches a clean run makes.
- `NonEmptyPages(n)`: the number of non-empty pages.
- `ExpectedLog`: the insert calls a run makes when no round aborts.

Three JavaScript behaviours of the code are easy to miss, and the model keeps them:

- The timestamps `add_time` and `update_time` become null when the source value
  is *falsy*, not only when it is absent. So `0` and `''` also give null.
- `user_id` is null when the nested `id` is falsy, so an `id` of `0` gives null.
  It is also null when the reference is a primitive rather than an object.
- The records are not guaranteed to be objects. Cleaning a `null` deal throws a
  TypeError. The `map` at line 30 runs before the `try` at line 44, so that
  exception reaches the `catch` of `runETL` and the run exits with status 1.
  The model keeps this path, so a run aborts in the first round that fails
  either its fetch or its cleaning.

## Model

| member | source | states |
|---|---|---|
| Cleaning.CleanDeal | backend/src/etl/pipedriveToBigQuery.ts:30-42 | A null or undefined deal throws; every other deal gives a row. `title`, `status` and `currency` are `''`, and `value` is `0`, exactly when the source field is falsy; otherwise they are the source value unchanged. The two timestamps are null exactly when the source is falsy; otherwise they are `new Date` of the source value. `user_id` is the nested `id` when the reference is an object with a truthy `id`, and null otherwise. `org_id` and `stage_id` are passed through whole when truthy, and null otherwise. `custom_fields` is the serialisation of the raw deal itself. `id` is copied as read. |
| Cleaning.CleanPage | backend/src/etl/pipedriveToBigQuery.ts:30-42 | The page cleans exactly when no deal in it is null or undefined. The cleaned page then has the same length as the input, and row `i` is the cleaning of deal `i` alone. |
| Cleaning.CleanPageAppend | backend/src/etl/pipedriveToBigQuery.ts:30-42 | Cleaning two pages one after the other gives the same rows, in the same order, as cleaning their concatenation. |
| Etl.FetchDeals | backend/src/etl/pipedriveToBigQuery.ts:17-24 | A fetch throws an API error exactly when the response's `success` field is falsy, whatever value it holds: `false`, `undefined`, `0`, `''` and so on. The error carries that `success` value. Otherwise the fetch returns the contiguous run of records at `start`, of length `min(limit, n - start)`, and nothing when `start` is past the end. So it holds at most `limit` records, and a short page holds every record left: it is short exactly when it reaches the end of the collection. |
| Etl.InsertDeals | backend/src/etl/pipedriveToBigQuery.ts:26-53 | When the table rejects with an error object, the only exception that escapes is the TypeError from cleaning a null or undefined deal. A rejected bulk insert is swallowed: the call still returns the cleaned rows and is only marked not stored. |
| Etl.RunRound | backend/src/etl/pipedriveToBigQuery.ts:59-64 | One round fetches at the offset `start` it is given. It aborts exactly when that fetch's `success` is falsy or the page at `start` has a null or undefined deal. It finishes without inserting exactly when the page is empty. Otherwise it inserts the cleaned page and reports the page's length, by which the offset advances. The stored flag depends only on whether that insert is rejected. |
| Etl.RunEtl | backend/src/etl/pipedriveToBigQuery.ts:55-71 | The exit status is 0 exactly when every round of a clean run succeeds (`AllRoundsOk` up to `Rounds(n)`), and 1 otherwise. The final offset always equals the number of rows inserted, and on status 0 it equals the size of the collection. On status 0 the run made exactly `n / 500 + 1` fetches and one insert call per non-empty page. Its log is the reference log `ExpectedLog`, and the inserted rows are the cleaned records in order, each exactly once. On status 1, the last fetch belongs to the first failing round, and the log holds only the calls of the rounds before it. None of these facts depends on the warehouse, so a rejected insert changes neither the status, nor the fetch count, nor the offsets; it only clears its own stored flag. |
| Etl.PageShapes | backend/src/etl/pipedriveToBigQuery.ts:59-65 | Every page before the last round of a clean run is full, and the last one is short or empty. So the loop never stops after a full page and always stops at the last one. |
| Etl.EmptyPageEnd | backend/src/etl/pipedriveToBigQuery.ts:61 | An empty page at the offset reached in round `k` means the collection holds exactly `k` full pages. That round is then the last one, and it inserts nothing. |
| Etl.ShortPageEnd | backend/src/etl/pipedriveToBigQuery.ts:63-64 | A short page that is not empty ends the collection. Its round is the last one, and it is the last non-empty page. |
| Etl.ExpectedLogLength | backend/src/etl/pipedriveToBigQuery.ts:59-65 | A run that does not abort makes one insert call per round while the pages are full. After all rounds it has made one insert call per non-empty page. |
| Etl.ExpectedLogCalls | backend/src/etl/pipedriveToBigQuery.ts:60-63 | In a run that does not abort, insert call `i` carries the cleaned page `i`. The table keeps it exactly when call `i` is not rejected. |
| Etl.ExpectedLogRows | backend/src/etl/pipedriveToBigQuery.ts:60-63 | After `m` rounds, the concatenated rows of the insert calls are the cleaned records `0` to `min(500 * m, n)`, in order, each exactly once. Their number is therefore `min(500 * m, n)`. |
| Etl.NextRound | backend/src/etl/pipedriveToBigQuery.ts:60-64 | A round that succeeds on a non-empty page extends the reference log by exactly its own insert call. It advances the number of inserted rows by the page length, which is the `start += deals.length` of line 63. |
| Etl.CompletedRun | backend/src/etl/pipedriveToBigQuery.ts:55-66 | When every round succeeds, the log has one call per non-empty page. Its rows are the cleaning of the whole collection, and call `i` carries page `i`. |
| Etl.AbortedRun | backend/src/etl/pipedriveToBigQuery.ts:55-70 | When round `k` is the first to fail, the run is not a clean run. It has inserted exactly the `k` full pages before that round. |

## Left out

- The HTTP request through axios and the URL construction (lines 18-19) are not modelled; they are network I/O. `Serve` stands in for them. It answers with the call's `success` value, and with the slice of the collection when that value is truthy. A transport failure ends the run in the same way as a falsy `success`, so it is folded into that case.
- `Remote.records` is assumed not to change during a run, and inserting each record exactly once depends on that. The loop pages by offset (lines 60 and 63), so on a live account a deal created or deleted between two fetches shifts every later page: deals are then skipped or inserted twice, which the model cannot show.
- The `!deals` test at line 61 is not modelled separately. It guards against a response without a `data` array, and in the model `data` is always a sequence.
- The BigQuery client, the dataset and table lookup, and `table.insert` (lines 15, 27-28 and 45) are foreign library calls. Each insert call is modelled as succeeding or throwing, according to `rejectedCalls`.
- Etl.InsertDeals: `table.insert` is assumed to reject with an object, as the BigQuery client does. A null or undefined rejection would make the `err.name` read at line 48 throw out of the `catch`, and the run would end with status 1. `Warehouse` has no rejection reason, so every rejection is swallowed.
- dotenv loading, the environment constants and the credential-path default (lines 3-13) are not modelled. They are environment setup with no logic.
- The internals of `new Date(...)` and `JSON.stringify` are library semantics that are not modelled. They are the opaque functions in `Builtins`.
- Cleaning.CleanDeal: it states that `custom_fields` is `stringify` of the raw deal. It cannot state that parsing that text gives back the original deal, because the serialiser is opaque.
- Console logging, `new Date().toISOString()` and `process.exit` (lines 46-51, 66, 68-69) are not modelled; they are side effects. The exit code is the `status` result of `RunEtl`.
- The async/await scheduling is not modelled. Only one request is ever in flight, so the run is modelled as sequential.
- JavaScript numbers are `real`, with NaN kept apart. Negative zero is folded into `0`, and infinities and BigInt are not represented. None of these changes what is truthy here, except that infinities would be truthy.
- Properties inherited through prototypes are not modelled. None of the names the cleaner reads is inherited.
- The default arguments of `fetchDeals` (line 17) are not modelled. The only caller passes both `start` and `limit`.
