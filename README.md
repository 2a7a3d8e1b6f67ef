# Reddit sentiment store — a Dafny model

This project models the core of a Reddit sentiment analyser. The core has two parts.

- **The labeller** (`analyze_sentiments`): each post is scored on its title and body. The compound score becomes one of three labels: `Positive`, `Neutral` or `Negative`.
- **The post store** (`Storage`): a SQLite `posts` table keyed by `id`.
  - The table is created if absent.
  - Batches are written with insert-or-ignore, so the first write of an id wins.
  - Two read-only queries run over it: per-day label counts in a time window, and the top posts of one label by sentiment.

Modules, one per concern:

- `Records` (records.dfy): the loosely typed records (dictionaries) that the pipeline passes around.
- `Text` (text.dfy): the newline join that stores a comment list, and its inverse.
- `Analysis` (analysis.dfy): the label rule and the annotate loop (src/analysis.py).
- `Table` (table.dfy): rows, record flattening and the insert-or-ignore batch, as values (src/storage.py:15-41).
- `Queries` (queries.dfy): `get_daily_counts` and `get_top_posts` as functions of the table (src/storage.py:44-80).
- `Store` (store.dfy): the `Storage` class and the database file it opens (src/storage.py:9-12, 83-110).
  - `Save` is a loop over the batch, proved equal to `Table.InsertAll`.
- `Pipeline` (pipeline.dfy): what labelled records give once stored, and the record used by the storage test.

Modelling choices:

- **The table.** It is a sequence of rows in insertion order (SQLite's rowid order) with unique ids. A lookup by id (`Find`) returns the row with that id.
- **The clock.** The query time `now` is a parameter.
- **The scorer.** The external VADER scorer is a function parameter `scorer: string -> Scores`.
- **Day numbers.** A day is `created_utc / 86400`. Dafny's integer division rounds down, so this is the UTC calendar day that `date(created_utc, 'unixepoch')` names. For years 0000–9999, ordering these dates as `YYYY-MM-DD` strings is the same as ordering the day numbers.
- **The window.** The window test is `created_utc >= now - days * 86400`.
- **Negative limits.** SQLite reads a negative `LIMIT` as "no limit", and `TopPosts` does the same.

Where the code and its descriptions differ, the model follows the code:

- `save` returns nothing; it does not return a count of written rows. `Table.InsertAllCount` states the number of rows a batch adds.
- `get_top_posts` orders by `sentiment` descending for every label. The docstring says "most-upvoted", but no vote count is read. For `Negative` this lists the mildest negative posts first. There is no day window.
- No code ever fills `text_summary` or `comment_summary`. There is no get-by-id, no summary update, no summary cache and no global summary query.
- The `_init_db` docstring (src/storage.py:84) says it adds the summary columns if they are missing. The code (src/storage.py:88-104) only runs `CREATE TABLE IF NOT EXISTS`, so an older table without `text_summary` and `comment_summary` keeps lacking them. `Store.Database` models only tables with the full schema.
- `fetch_posts` (src/ingestion.py:18-24) builds records without `permalink`, so their labelled form cannot be saved (`Pipeline.FetchedPostIsNotSaveable`). No code in the repository passes fetched posts to `save`.

## Model

| member | source | states |
|---|---|---|
| `Analysis.LabelOf` | src/analysis.py:13-18 | The label is Positive iff score ≥ 0.05, Negative iff score ≤ −0.05, and Neutral iff the score is strictly between. So ±0.05 fall to Positive/Negative and every score gets exactly one label. |
| `Analysis.LabelMonotone` | src/analysis.py:13-18 | A higher score never gets a lower label (Negative < Neutral < Positive). |
| `Analysis.NameIsOneOfThree` | src/analysis.py:14-18 | A stored label text is one of "Positive", "Neutral", "Negative", and distinct labels get distinct texts. |
| `Analysis.ScoredText` | src/analysis.py:10 | The scored text is exactly the title, one space, then the body. |
| `Analysis.Annotate` | src/analysis.py:10-19 | The output record has the input's keys plus `sentiment` and `label`, and every other field is unchanged. `sentiment` is the score dictionary of the scored text, and `label` is the threshold label of its compound score. |
| `Analysis.AnalyzeSentiments` | src/analysis.py:7-20 | The output has the input's length, and element i is the annotation of input element i. |
| `Analysis.AnalyzedLabelsConsistent` | src/analysis.py:12-19 | Every output record carries a label that agrees with the threshold rule applied to its own stored compound score. |
| `Text.JoinLines` | src/storage.py:31 | The joined text starts with the first comment. When no comment holds a newline, it has exactly one newline between neighbours: `len - 1` newlines, none for an empty list. |
| `Text.SplitJoin` | src/storage.py:31 | Splitting the newline-joined comments at newlines gives back the list, when the list is non-empty and no comment contains a newline. |
| `Text.JoinLinesLosesStructure` | src/storage.py:31 | Both conditions are needed: `[]` and `[""]` are stored alike, and so are `["a\nb"]` and `["a","b"]`. |
| `Table.Truncate` | src/storage.py:32 | `int(created_utc)` rounds toward zero: it is within 1 of the input and on the zero side of it. |
| `Table.ToRow` | src/storage.py:27-36 | The row copies the id, title, body, permalink and label strings and the compound score. Its comments are the newline join of the list. Its created time is `int(created_utc)`, truncated toward zero for either sign. Both summary columns are null. |
| `Table.StoredCommentsRoundTrip` | src/storage.py:31 | A stored row's comment blob splits back into the record's comment list, under the conditions of `SplitJoin`. |
| `Table.Flatten` | src/storage.py:26-38 | A batch gives one row per record, in batch order. |
| `Table.InsertOrIgnore` | src/storage.py:21 | One insert appends at most one row and keeps every existing row in place. Afterwards the table's ids are the old ids plus the row's id. |
| `Table.InsertAll` | src/storage.py:19-39 | A batch adds at most one row per batch element and never removes a row. |
| `Table.Find` | src/storage.py:92 | A lookup by primary key finds nothing iff the id is absent. Otherwise it gives the first row in table order with that id. |
| `Table.InsertAllExtends` | src/storage.py:19-39 | A batch only appends: existing rows keep their place and contents, and an empty batch changes nothing. |
| `Table.InsertAllIds` | src/storage.py:19-39 | After a batch, the table's ids are the old ids plus the batch's ids. |
| `Table.InsertAllUnique` | src/storage.py:21-24 | A batch keeps ids unique (the primary key). |
| `Table.InsertAllFind` | src/storage.py:21 | First write wins. An id already stored keeps its old row. An id new to the table gets the first record in batch order with that id. An id in neither stays absent. |
| `Table.InsertAllKnown` | src/storage.py:21 | A batch whose ids are all stored already leaves the table unchanged. |
| `Table.InsertAllIdempotent` | src/storage.py:19-39 | Saving a batch twice gives the table that saving it once gives, and afterwards every batch id is present. |
| `Table.InsertAllCount` | src/storage.py:19-39 | A batch adds exactly as many rows as it has distinct ids not yet stored. |
| `Table.InsertAllSummariesUnset` | src/storage.py:22-23 | A batch never sets a summary column, so a table with no summaries keeps none. |
| `Queries.DayOf` | src/storage.py:50 | The day number `d` is the UTC day holding the timestamp: `d*86400 <= created_utc < (d+1)*86400`, before 1970 too. |
| `Queries.Window` | src/storage.py:55 | The windowed rows are exactly the table rows with `created_utc >= now - days*86400`, and each occurs no more often than in the table. |
| `Queries.CountOn` | src/storage.py:51-53 | A count over one day and a set of labels never exceeds the number of rows. |
| `Queries.CountOnUnion` | src/storage.py:51-53 | Counts over disjoint label sets add up to the count over their union. |
| `Queries.Tally` | src/storage.py:50-53 | A day's group carries that day. Its three `SUM(label = ...)` counts together never exceed the number of rows, because the three labels are distinct and no row is counted twice. |
| `Queries.Groups` | src/storage.py:50-57 | One group per distinct day, days strictly decreasing. Each group holds that day's Positive, Neutral and Negative counts. |
| `Queries.DailyCounts` | src/storage.py:44-62 | Days are strictly decreasing. The reported days are exactly the days of the in-window posts. Each count is the number of that day's in-window posts with that label. |
| `Queries.CountOnPositive` | src/storage.py:51-56 | A day's count over a label set is at least 1 iff some row of that day has one of those labels. |
| `Queries.DailyTotals` | src/storage.py:51-53 | A day's three counts add up to that day's posts that carry one of the three names. The sum is ≥ 1 iff such a post exists. Applied to the window, this covers every row `DailyCounts` reports. |
| `Queries.WithLabel` | src/storage.py:72 | Exactly the table's rows with the wanted label are kept, and each only as often as it occurs in the table. |
| `Queries.SortDesc` | src/storage.py:73 | The result is sorted by non-increasing sentiment and is a permutation of its input. |
| `Queries.LimitCount` | src/storage.py:74 | `LIMIT n` keeps `min(n, len)` rows; a negative limit keeps all. |
| `Queries.TopRows` | src/storage.py:70-74 | `min(n, count)` rows (all when `n < 0`), in non-increasing sentiment, each a table row with the wanted label. As a multiset they are contained in that label's rows, so no row is listed twice. With a negative limit they are exactly that label's rows. |
| `Queries.TopPosts` | src/storage.py:64-80 | At most `n` results, by non-increasing sentiment. Result i is the selected columns of row i of `TopRows`, so results come from distinct rows. With a negative limit, every row with that label has its columns among the results. |
| `Queries.ProjectionsCover` | src/storage.py:70 | Every selected row's four columns `title, body, permalink, sentiment` appear among the projected results. |
| `Queries.TopRowsAreTop` | src/storage.py:72-74 | Every row of that label that is left out has sentiment no higher than any row kept. |
| `Store.Storage.constructor` | src/storage.py:10-12 | Opening a file makes the schema exist and keeps the rows already stored. |
| `Store.Storage.InitDb` | src/storage.py:83-110 | Create-if-absent: an existing table is left exactly as it was, and a new one is empty. |
| `Store.Storage.Save` | src/storage.py:15-41 | The new table is the insert-or-ignore of the flattened batch into the old one, and ids stay unique. |
| `Store.Storage.GetDailyCounts` | src/storage.py:44-62 | Returns `DailyCounts` of the current table and changes nothing. `days` defaults to 7. |
| `Store.Storage.GetTopPosts` | src/storage.py:64-80 | Returns `TopPosts` of the current table and changes nothing. `n` defaults to 5. |
| `Store.ReopenKeepsRows` | src/storage.py:89-91 | A second handle on the same file keeps what the first saved. Both saves compose as successive insert-or-ignore batches. |
| `Pipeline.AnnotatedRecordIsSaveable` | src/storage.py:28-35 | A labelled post with id, comments, timestamp and permalink can be saved. Its row's sentiment is the compound score of its title and body, and its label is that score's threshold label. |
| `Pipeline.FetchedPostIsNotSaveable` | src/ingestion.py:18-24 | A post without `permalink`, as `fetch_posts` builds it, cannot be flattened by `save` even after labelling. |
| `Pipeline.SaveKeepsLabelsConsistent` | src/storage.py:19-39 | Saving label-consistent rows into a label-consistent table keeps it label-consistent. |
| `Pipeline.AnnotatedBatchConsistent` | src/analysis.py:19 | The rows of a labelled batch of complete posts can be saved and are label-consistent. |
| `Pipeline.ConsistentDaysAreNonEmpty` | src/storage.py:50-57 | On a label-consistent table, the day of any in-window post (every day `DailyCounts` reports) has counts that sum to all of that day's in-window posts, so to at least 1. |
| `Pipeline.StorageTestRecordIsMalformed` | tests/test_storage.py:8-11 | The test's record lacks `comments` and `permalink`, so `save` cannot flatten it. |
| `Pipeline.CompletedTestRecordSavesOneRow` | tests/test_storage.py:12-17 | The completed record saved into an empty table yields exactly one row, with id `x1`. |

## Left out

- The VADER scorer (src/analysis.py:3-5, 11) is an external library. It is the parameter `scorer`, whose results are taken as given.
- Floating point: scores are exact `real`s. The thresholds ±0.05 are exact, not IEEE doubles.
- SQLite mechanics are not modelled: connections, commit and close, transactions, and the two indexes (src/storage.py:106-107), which only affect speed.
- The clock: `now` is a parameter. `strftime('%s','now')` is taken to be the integer second.
- `Store.Storage.GetDailyCounts`: `days` is a `nat`. For a negative `days`, the SQL modifier text would read `--N days`; SQLite's handling of that text is not modelled.
- `Table.WellFormed` asks for string ids, titles, bodies, permalinks and labels, and a list of strings for comments. SQLite would also store other value kinds in those columns. A missing key raises `KeyError` before anything is written, and this is a precondition of `Save`, not an error result.
- `Analysis.HasText` asks for string `title` and `body`. A record without either raises `KeyError` in `analyze_sentiments` (src/analysis.py:10). That error is a precondition of `Annotate` and `AnalyzeSentiments`, not an error result. Python's f-string formatting of non-string values is not modelled.
- An existing `posts` table created by an older schema, without the summary columns, is not modelled. `_init_db` would leave such a table unchanged; the model's table always has both summary columns.
- The default file `db_path = DB_PATH` (src/storage.py:6, 10) is not modelled: the constructor takes the `Database` it opens. The defaults `days = 7` and `n = 5` (src/storage.py:44, 64) are the default parameter values of `GetDailyCounts` and `GetTopPosts`.
- `Queries.TopPosts`: rows of equal sentiment come out in insertion order. SQLite leaves their order unspecified, so the model fixes one valid order.
- `Table.WellFormed`: SQLite's 64-bit INTEGER range is not modelled. A `created_utc` whose truncation lies outside [-2^63, 2^63), such as 1e19, makes `executemany` (src/storage.py:19, 32) raise `OverflowError`. The whole batch is then lost, because `commit` (src/storage.py:40) never runs.
- `Store.Storage.Save`: for such a batch it appends the rows instead of failing, because `Row.createdUtc` is an unbounded integer.
- `Queries.LimitCount`: a limit `n >= 2^63` makes the `LIMIT ?` binding (src/storage.py:74) raise `OverflowError`. The model keeps every row instead.
- `Store.Storage.GetDailyCounts`: SQLite's date range, 0000-01-01 to 9999-12-31, is not modelled. When `'-{days} days'` (src/storage.py:55) reaches before year 0000, at about `days > 740000`, SQLite yields NULL and no row passes the WHERE; the model counts every row in the window. `date()` is likewise NULL for a timestamp outside that range, which would put all such rows into one group; the model gives each its own day number.
- Dates are day numbers, not `YYYY-MM-DD` strings. The two orders agree for years 0000–9999 only.
- The rest of the repository is not part of this model: src/ingestion.py (a network client), src/summarizer.py and src/text_summarizer.py (foreign LLM calls), src/app.py and src/api.py (presentation).

## Findings

| source | as written | input that shows it | evidently intended | confidence | as-written member | corrected member |
|---|---|---|---|---|---|---|
| tests/test_storage.py:8-11 | the saved record has no `comments` and no `permalink` keys | the record `{"id": "x1", "created_utc": 0, "title": "t", "body": "b", "sentiment": {"compound": 0.5}, "label": "Positive"}`; `save` reads `r["comments"]` and raises `KeyError` | a complete record, whose save gives the one row the test counts | high; not executed | `Pipeline.StorageTestRecordIsMalformed` | `Pipeline.CompletedTestRecordSavesOneRow` |
