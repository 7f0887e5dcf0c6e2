# eReefs benchmark scoring: a Dafny model of the scoring and aggregation logic

The eReefs AI support benchmark is scored by hand. An evaluator opens a
benchmark item, pastes a model's answer and enters points per rubric
criterion. Pressing "Save evaluation" writes one table per evaluation. A
separate batch job later flattens the stored runs into one report. This
project models the two pieces of pure logic in that flow and proves
properties about them.

- `scoring.dfy` (module `Scoring`) models the scoring form in
  `app/score_app.py`. Each criterion's score is bounded to the interval
  between 0 and the criterion's points. The subtotal is the running sum of
  the scores. The item maximum is the item's own `max_points` or, when that is
  absent, the sum of the positive criterion points. One row is built per
  criterion. The item-level columns are then stamped onto every row, and the
  per-criterion `max_points` is overwritten by the item maximum. The answer
  hash is the first 12 digest characters, or `noanswer` for an empty answer.
  The run identifier is `item_id _ model-or-unknown _ timestamp _ hash`.
- `aggregate.dfy` (module `Aggregate`) models `scripts/aggregate.py`. Only runs
  whose `status` is exactly `"complete"` are kept. Runs, answers and criterion
  entries are flattened into one row per criterion entry. Missing keys get
  their defaults. The run metadata is copied onto every row. The columns are
  put in canonical order. The two "nothing to report" exits are modelled as
  outcomes.
- `seqs.dfy` (module `Seqs`) holds the generic sequence notions: sum,
  distinctness, subsequence, and a permutation lemma.
- `wrappers.dfy` (module `Wrappers`) holds `Option`. It stands for an absent
  dictionary key or an unset item maximum.

Inputs the program gets from outside are parameters:
- The score entered in each number widget is an element of `scores`.
- The SHA-256 hex digest is the function parameter `sha256Hex`. It must return
  a 64-character lower-case hex string for the answer.
- The UTC clock reading is the `timestamp` string.
- The parsed run files are a `seq<RunRecord>` in sorted file-name order.

## Model

| member | source | states |
|---|---|---|
| Scoring.ScoreRange | app/score_app.py:65-74 | The number widget's interval `[min(0, pts), max(pts, 0)]` is the smallest interval holding both 0 and `pts`. It is never empty, and the default score 0 is always admissible. |
| Scoring.PositivePoints | app/score_app.py:77 | The sum of the positive parts of the criterion points is never negative. |
| Scoring.ItemMaxPoints | app/score_app.py:77 | An explicit item `max_points` is used unchanged. Without one, the maximum is the sum of the positive criterion points, which is at least 0. |
| Scoring.SubtotalWithinPoints | app/score_app.py:74-77 | If every score lies in its criterion's interval, the subtotal lies between the sum of the negative points and the sum of the positive points. |
| Scoring.SubtotalAtMostDefaultMax | app/score_app.py:74-77 | If the item has no explicit maximum, an admissible subtotal never exceeds the item maximum. |
| Scoring.ScoreItem | app/score_app.py:57-77 | The scoring loop gives exactly one row per criterion, in rubric order. Each row carries the criterion id, its description, its declared points as `max_points`, and the entered score. The total is the sum of the scores, and it is bounded by the point sums when the scores are admissible. |
| Scoring.AnswerHash | app/score_app.py:84 | The hash is `"noanswer"` exactly when the answer is empty. Otherwise it is the first 12 characters of the answer's hex digest. It never contains `_`. |
| Scoring.RunId | app/score_app.py:85 | The run id starts with `item_id_` and ends with `_hash`. Its length is the sum of the four parts plus three separators. |
| Scoring.SplitAtLast | app/score_app.py:85 | Splitting at the last `_` gives parts that join back to the input, with no `_` after the split. The result is `None` exactly when there is no `_`. |
| Scoring.RunIdRecoversStampAndHash | app/score_app.py:83-85 | For a `%Y%m%dT%H%M%SZ` timestamp, the last `_`-field of the run id is the answer hash. The field before it is the timestamp. What remains is `item_id_model-or-unknown`. |
| Scoring.AddColumns | app/score_app.py:90-91 | Assigning a list of columns to a table keeps the existing columns in place, as a prefix of the new header. |
| Scoring.AddColumnsFresh | app/score_app.py:90-91 | Names that are all new and distinct are appended in their order. |
| Scoring.AddColumnsExisting | app/score_app.py:90-91 | Assigning a column that already exists does not add one. |
| Scoring.AddColumnsSplit | app/score_app.py:90-91 | Adding a list of names is the same as adding its parts one after the other. |
| Scoring.SavedColumnsWithRows | app/score_app.py:76-91 | The saved header has the four criterion columns, then the item-level columns. `max_points` stays in third place and is not repeated. |
| Scoring.SavedColumnsWithoutRows | app/score_app.py:88-91 | An item with an empty rubric saves a header of just the eleven item-level columns. |
| Scoring.SavedHeader | app/score_app.py:88-91 | The header of the table saved for an item is the four criterion columns followed by the item-level columns, with `max_points` not repeated. For an item with an empty rubric it is just the eleven item-level columns. |
| Scoring.SaveHeader | app/score_app.py:88-91 | The header built for an item is the four criterion columns followed by the item-level columns, with `max_points` in third place and not repeated. With an empty rubric, it is the eleven item-level columns. |
| Scoring.Stamp | app/score_app.py:90-102 | There is one saved row per criterion row. Each keeps its criterion, description and awarded points. All rows get the same benchmark id, subtotal, answer hash, timestamp and metadata. Every row's `max_points` is replaced by the item maximum. |
| Scoring.SaveEvaluation | app/score_app.py:57-110 | Saving yields one row per criterion, with that criterion's id, description and entered score. Each row's benchmark id, item maximum and hash are the item's. Every row carries the typed model name, provider, model version, temperature, evaluator and run notes, and the same UTC timestamp the run id is built from. Each row's subtotal equals the sum of the table's awarded-points column. The table's header is the criterion columns followed by the item-level columns without a second `max_points`, or only the item-level columns when the rubric is empty. The files are named `run_id.csv` and `run_id.answer.txt`, and the answer file holds the answer text. |
| Aggregate.MetaOfDefaults | scripts/aggregate.py:24-26 | Each of the nine run metadata fields is the run's value when the key is present and `None` when it is absent. |
| Aggregate.MakeRowDefaults | scripts/aggregate.py:28-43 | A row has the question id, criterion id, `awarded_points` and `max_points`, each `None` when absent. Criterion notes, answer text, question notes and question timestamp default to `""` when absent. The row carries the run's metadata. |
| Aggregate.AnswerRows | scripts/aggregate.py:32-44 | An answer yields one row per criterion entry, in entry order. |
| Aggregate.AnswersRows | scripts/aggregate.py:27-44 | A run's answers yield as many rows as they have criterion entries in total. Every row carries the run's metadata. |
| Aggregate.RunRows | scripts/aggregate.py:24-44 | A run yields one row per criterion entry across all its answers. Every row carries that run's own metadata. |
| Aggregate.Aggregate | scripts/aggregate.py:17-44 | The number of report rows equals the sum, over complete runs, of the criterion entries across their answers. |
| Aggregate.AggregateRowsFromCompleteRuns | scripts/aggregate.py:21-44 | Every report row carries the metadata of some complete run among the files. |
| Aggregate.CompleteRuns | scripts/aggregate.py:21-23 | A run is kept exactly when its status is the string `"complete"`. A missing status or any other status drops it. |
| Aggregate.AggregateAppend | scripts/aggregate.py:12-44 | The rows of earlier files come before the rows of later files. |
| Aggregate.AggregateSingle | scripts/aggregate.py:21-44 | A single complete run contributes exactly its flattened rows. An incomplete run contributes none. |
| Aggregate.AnswersRowsAppend | scripts/aggregate.py:27-44 | Within a run, the rows of earlier answers come before the rows of later answers. |
| Aggregate.AggregateIgnoresIncomplete | scripts/aggregate.py:21-23 | Removing the incomplete runs first leaves the report unchanged. |
| Aggregate.IncompleteRunContributesNothing | scripts/aggregate.py:18-23 | An incomplete run anywhere in the file list adds no rows, and the rows around it are unchanged. |
| Aggregate.Present | scripts/aggregate.py:59 | The canonical part holds exactly the canonical names that are present, as a subsequence of the canonical list. |
| Aggregate.Extras | scripts/aggregate.py:59 | The extra part holds exactly the non-canonical columns, as a subsequence of the input columns. |
| Aggregate.OrderColumns | scripts/aggregate.py:53-60 | The ordered columns have the same members as the input. All canonical columns come first, in canonical order (a subsequence of the canonical list). The remaining columns follow in their input order (a subsequence of the input), and none of them is canonical. |
| Aggregate.OrderColumnsPermutes | scripts/aggregate.py:59 | Given distinct names, the ordering is a permutation of the input columns: nothing is lost and nothing is duplicated. |
| Aggregate.OrderColumnsOfCanonicalNames | scripts/aggregate.py:59 | When the columns are exactly the canonical names, distinct, in any order, ordering yields the canonical list, and that list is a rearrangement of the columns. |
| Aggregate.OrderColumnsIdempotent | scripts/aggregate.py:59-60 | Ordering an already ordered column list leaves it unchanged. |
| Aggregate.RowKeysOrdered | scripts/aggregate.py:33-60 | Every row's keys are the same 17 distinct names. Ordering them gives exactly the canonical list, which is a rearrangement of them (`run_id` moves to the end). |
| Aggregate.AggregateRuns | scripts/aggregate.py:12-60 | With no files, the job ends in `NoRunFiles` ("No run files found."). With files but no criterion entry in any complete run, it ends in `NoCompleteRuns` ("No complete runs found."). Neither outcome carries a table. Otherwise the report holds exactly the aggregated rows, and there is at least one. |
| Aggregate.Messages | scripts/aggregate.py:13-68 | The job prints one line exactly when there is nothing to report. The line is "No run files found." or "No complete runs found.". When a report is written, it prints two `Wrote` lines, first for the CSV path and then for the XLSX path. |
| Aggregate.ReportColumnsCanonical | scripts/aggregate.py:50-60 | A written report's header is exactly the canonical column list. |

## Notes on the code

- The run id is `item_id_model-or-unknown_timestamp_hash`. The provider is
  never part of it (`Scoring.RunId`, `Scoring.RunIdRecoversStampAndHash`).
- The scoring loop puts each criterion's declared points in the row's
  `max_points` (app/score_app.py:76). The save step then overwrites that column
  with the item maximum (app/score_app.py:90, 100). The saved table therefore
  does not keep the criterion's points (`Scoring.Stamp`,
  `Scoring.SavedColumnsWithRows`).
- The scoring app writes one `.csv` file per evaluation and never sets a
  `status`. The batch job reads `*.json` run files that carry one.
- With nothing to report, the job prints one of two messages and exits with
  status 0 (`Aggregate.AggregateRuns`, `Aggregate.Messages`).

## Left out

- Streamlit widgets, layout, captions, the item picker and caching
  (app/score_app.py:16-56, 78-80, 112-115). These are UI only. The entered
  scores are given integers, and the subtotal display is not modelled.
- Duplicate criterion ids in a rubric make the widget keys clash in Streamlit.
  This is not modelled.
- The `is_penalty` and `scoring_note` fields. `is_penalty` is read
  (app/score_app.py:63) and never used. `scoring_note` is only shown as a
  caption (app/score_app.py:64, 71-72).
- YAML spec loading (app/score_app.py:18-21). Items are input values. A YAML
  `max_points` key that is present but null would give `None` in the source.
  The model has only "set to an integer" or "absent".
- SHA-256 in `hash_text` (app/score_app.py:23-24) is a library call. It is the
  parameter `sha256Hex`, with a hex-digest precondition.
- `datetime.utcnow().strftime(...)` (app/score_app.py:83) is a clock. The
  timestamp is a string parameter, and `IsUtcStamp` describes its format.
- File and library I/O: DataFrame construction, CSV and XLSX writing, `mkdir`,
  `glob`, `sorted` and JSON parsing (scripts/aggregate.py:12, 19-20, 50, 62-68;
  app/score_app.py:88, 104-110). Runs arrive parsed and already in file-name
  order. The saved table is a row sequence plus a header list.
- JSON shapes the script would crash on are not representable. An `answers` or
  `criterion` key holding `null` or a non-list is one example. JSON floats and
  objects are not represented in `Value`. `temperature` is free text, carried
  as a string.
- Writing the answer text file (app/score_app.py:108-110) is shown only as the
  `answerName` and `answerText` fields of `Scoring.Evaluation`. The saved table is its
  `rows` and `header` fields.
