# Detection store: a Dafny model of the ingestion and query backend

This project models the backend of a small object-detection service (`server.py`). A
video-analysis client posts detection records: a label, a confidence, a bounding box of four
nullable coordinates, a source and a timestamp. The backend normalises each payload and keeps it
in a detection table. It answers filtered listings and aggregate statistics over that table.

The database is modelled as an in-memory store: a sequence of stored rows plus the id counter
that the database keeps. The modules follow the structure of the source:

- `Json` (`json.dfy`): the decoded JSON values a handler receives, and Python truthiness
  (`if x:`), which the source uses to test bodies, timestamps and query arguments.
- `Detections` (`detections.dfy`): the `Detection` row, the normalisation done by
  `_insert_detection`, and `to_dict`. Normalisation returns a `Result` whose error names the
  exception the source would raise.
- `Ingestion` (`ingestion.dfy`): the `Store` class (rows and next id), `Insert` (normalise,
  then add to the session) and `AddDetections` (POST /detections). The batch mode is a loop
  that skips failing elements. The single mode is all-or-nothing.
- `Query` (`query.dfy`): GET /detections. It applies the filters, sorts newest first and
  applies the limit.
- `Stats` (`stats.dfy`): GET /stats. It computes the total, the count per label, the recent
  count and the per-minute rate.

Conversions whose internals are not modelled are parameters, gathered in the `Conversions`
datatype: `float()` on a string, `datetime.fromisoformat` and `datetime.isoformat`. Each is a
total function, and a `None` result stands for the exception. The clock is a parameter too.
`AddDetections` takes `clock: nat -> Time`, where `clock(i)` is the reading of `utcnow()` while
the i-th batch element (or the single payload, i = 0) is processed. The statistics take `now`.
A time is an integer count of microseconds.

In these cases the model follows the code exactly:

- A payload with `"source": null` keeps a null source. Only a missing key falls back to the
  batch source or `"unknown"`.
- A timestamp is parsed only when it is truthy. An empty string or `0` takes the clock
  reading. A truthy value that is not a string fails the record.
- The bbox only needs at least four elements; extra elements are ignored. A string bbox is
  indexed character by character, as Python does.
- A batch element that is not a JSON object is skipped. A body that is truthy but neither a
  batch nor an object fails in single mode.
- An unparsable `start` or `end` query argument is not caught by the handler. The model
  returns an error for it (the server answers 500).
- A negative `limit` is passed to the database. On SQLite, the default store, a negative
  LIMIT means no limit, and the model does the same.

## Model

| member | source | states |
|---|---|---|
| `Detections.Normalise` | server.py:42-58 | the field logic of `_insert_detection`; it has no contract of its own, and its properties are stated by `ConfidenceRule`, `TimestampRule`, `BboxPositions`, `BboxLength`, `MissingBboxIsAllNull`, `SourceRule` and `ReingestRoundTrip` |
| `Detections.ToDict` | server.py:27-35 | `Detection.to_dict`; no contract of its own, its inverse relation to normalisation is `ReingestRoundTrip` and its bbox order is `BboxNumbersRoundTrip` |
| `Detections.ConfidenceRule` | server.py:45 | a missing confidence becomes 0.0 and never fails; a present one is the `float` conversion of the value; a non-convertible one fails the record with BadConfidence |
| `Detections.TimestampRule` | server.py:47-48 | a missing or falsy timestamp becomes the clock reading; a truthy one must be a string that parses, and the record's timestamp is the parsed instant; otherwise the record fails |
| `Detections.BboxPositions` | server.py:52-55 | after a successful bbox conversion all four positions exist; position k is null exactly when element k is null, and otherwise holds `float(element k)` |
| `Detections.BboxLength` | server.py:46-55 | a bbox list shorter than four always fails; one with four or more whose first four elements are null or convertible always succeeds |
| `Detections.MissingBboxIsAllNull` | server.py:46 | without a bbox the record gets four null coordinates and cannot fail on the bbox |
| `Detections.SourceRule` | server.py:56 | the payload's own source is stored when present, otherwise the default source |
| `Detections.ReingestRoundTrip` | server.py:27-35 | posting the `to_dict` form of a stored row yields exactly the same columns, given that ISO formatting and parsing are inverse on its timestamp |
| `Detections.BboxNumbersRoundTrip` | server.py:32 | a bbox of four numbers is served back by `to_dict` as the identical four numbers in the same order |
| `Ingestion.Store.constructor` | server.py:37-39 | a new store is empty and well numbered |
| `Ingestion.Store.Insert` | server.py:42-60 | a payload that normalises is appended as one row with the next id; one that fails leaves the rows unchanged and reports the reason |
| `Ingestion.Store.AddDetections` | server.py:62-102 | an empty or missing body gives 400 with no change; a batch appends exactly the elements that normalise, in input order, after the existing rows, with consecutive ids, and reports their number; a single payload adds one row and reports its id, or gives 400 with no change |
| `Ingestion.Accepted` | server.py:84-91 | the fields a batch keeps; no contract of its own, its properties are `AcceptedAppend`, `AcceptedSingle`, `ElementIndependence`, `AcceptedCount`, `AcceptedFromItems` and `DefaultTimestampsInWindow`, and `Store.AddDetections` ties the store to it |
| `Ingestion.AcceptedAppend` | server.py:84-91 | what a batch keeps is what its first part keeps followed by what its second part keeps |
| `Ingestion.AcceptedSingle` | server.py:86-91 | a single element is kept, as its normalised fields, exactly when it normalises |
| `Ingestion.ElementIndependence` | server.py:85-91 | keeping or dropping the element at position k does not change what is kept before or after it |
| `Ingestion.AcceptedCount` | server.py:84-93 | a batch of N elements of which M fail reports N - M insertions |
| `Ingestion.AcceptedFromItems` | server.py:85-88 | every kept record is the normalisation of some batch element at that element's clock reading |
| `Ingestion.BatchSourcePrecedence` | server.py:83-87 | an element's own source wins, then the batch source, then "unknown" |
| `Ingestion.DefaultTimestampsInWindow` | server.py:48 | when no element carries a timestamp, every kept record's timestamp lies within the clock readings taken while the request was processed |
| `Query.ParseCriteria` | server.py:115-128 | the filters read from the query string; no contract of its own, its properties are `CriteriaFromArgs` |
| `Query.Select` | server.py:121-130 | filter, newest-first order and limit; no contract of its own, its properties are `QuerySound`, `QueryComplete`, `QueryShape`, `QueryKeepsNewest` and `SelectIsNewestMatches` |
| `Query.Filter` | server.py:121-128 | the filtered rows are stored rows, each at most as often as stored, and are exactly the stored rows that satisfy every filter in force |
| `Query.InsertNewestFirst` | server.py:130 | inserting into a newest-first sequence keeps it newest first and adds exactly that row |
| `Query.SortNewestFirst` | server.py:130 | the ordering step returns a permutation of its input with timestamps non-increasing |
| `Query.GetDetections` | server.py:104-131 | the reply fails exactly when a given start or end bound does not parse; otherwise it holds min(limit, number of matches) serialised rows; they are the `to_dict` forms of stored rows matching every filter in force, newest first, each stored row at most once, with no left-out match newer than a served row; and every match is served when the matches fit within the limit (default limit 200) |
| `Query.SerialisedLength` | server.py:130-131 | the serialised reply holds min(limit, number of matches) rows |
| `Query.SelectIsNewestMatches` | server.py:121-130 | the selection is newest first, uses each stored row at most once, holds only matches, and leaves out no match newer than a selected row |
| `Query.SerialisedSound` | server.py:121-131 | the serialised reply is the `to_dict` form, row by row, of such a choice of the newest matches |
| `Query.SerialisedComplete` | server.py:121-131 | when the matches fit within the limit, the `to_dict` form of every match is in the reply |
| `Query.CriteriaFromArgs` | server.py:115-128 | an empty or missing argument imposes no filter, a given one imposes exactly its filter, and only an unparsable start or end fails |
| `Query.NoCriteriaKeepsAll` | server.py:121-128 | with no filter in force the filtering step keeps every row, in store order |
| `Query.QuerySound` | server.py:121-130 | every returned row is stored and satisfies every filter in force |
| `Query.QueryComplete` | server.py:121-130 | when the matches fit within the limit, every matching row is returned |
| `Query.QueryShape` | server.py:119-130 | the result is newest first and holds min(limit, number of matches) rows, or all matches for a negative limit |
| `Query.QueryKeepsNewest` | server.py:130 | a matching row left out by the limit is no newer than any returned row |
| `Stats.ComputeStats` | server.py:133-153 | the stats reply; no contract of its own, its properties are `CountsPerLabelExact`, `TotalIsSumOfCounts`, `RecentRate`, `RecentCountIsQueryCount` and `WiderWindowCountsMore` |
| `Stats.CountLabel` | server.py:140 | a label's count is at most the total, and positive exactly when a row has that label |
| `Stats.Labels` | server.py:140-141 | the groups are distinct and are exactly the labels present |
| `Stats.CountSince` | server.py:145 | the recent count is at most the number of rows |
| `Stats.TotalIsSumOfCounts` | server.py:139-141 | the per-label counts add up to the total |
| `Stats.CountsPerLabelExact` | server.py:139-141 | `counts_per_label` has one key per label present, mapped to that label's row count, and the counts add up to `total_detections` |
| `Stats.RecentRate` | server.py:143-146 | the recent count is at most the total; the rate is present exactly when minutes > 0, and then rate times minutes equals the recent count |
| `Stats.RecentCountIsQueryCount` | server.py:144-145 | the recent count equals the number of rows a listing with only `start = cutoff` matches |
| `Stats.WiderWindowCountsMore` | server.py:143-145 | a wider window never counts fewer recent rows |

## Left out

- HTTP routing, JSON decoding of the request body, `jsonify`, the dashboard page and `/health`
  (server.py:2, server.py:156-162). A reply is a datatype. A missing or unparsable body is the
  JSON `null` value, which is falsy like the `None` the framework returns.
- SQLAlchemy and SQLite persistence, table creation and commit timing. Ids are given when a row
  is added. The source's batch ids are `None` before the commit, but the reply only counts them.
  A null label, which the `nullable=False` column refuses only at commit, is stored like any other.
- Column types: the label and the source are stored as whatever JSON value the payload held.
- Concurrency between producers and consumers; the code has none of its own.
- Floating point: confidences and coordinates are reals. Rounding and overflow of `float()` are
  not modelled. The per-minute rate is an exact real quotient.
- The internals of `float()` on strings, `fromisoformat`, `isoformat` and `utcnow`. They are
  parameters. Time zones are not modelled: a parsed timestamp is one UTC instant.
- The crash of `int()` on a non-integer `limit` or `minutes` argument. These arguments arrive as
  integers. `Query.LimitArg` supplies the default limit of 200. The default window of 5 minutes
  is not modelled: `Stats.ComputeStats` takes the window as given.
- Stats.ComputeStats: always returns a reply. In the source, a window that puts
  `utcnow() - timedelta(minutes=minutes)` before year 1 (about 1.06e9 minutes) or after year
  9999 (about -4.19e9 minutes) raises `OverflowError` and the server answers 500. The model has
  no bounds on dates.
- Query.Limit: accepts any integer. In the source, a limit outside the signed 64-bit range
  cannot be bound as an SQLite parameter, and the server answers 500. The model has unbounded
  integers, and treats every negative limit as no limit.
- The warning and exception logging of skipped batch elements and refused single payloads
  (server.py:90, server.py:101). Logging has no effect on the store or the reply.
- The message text of the 400 reply in single mode. It is the exception's text in the source
  and a `NormError` here.
- `Query.SortNewestFirst`: the order among rows with equal timestamps is left to the database
  in the source. The model keeps store order among them.
- detector.py: video capture, model inference and the network POST of the producer.
