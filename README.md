# Staging-and-merge load job, modelled in Dafny

This project models a batch load job for a serverless data warehouse. The job
has two parts.

- `app.py` reads a JSON file from object storage. If the file is a JSON array,
  the job rewrites it as newline-delimited JSON (NDJSON) under a `processed/`
  key. It then runs four SQL statements in strict order: truncate the staging
  table, COPY the file into it, create the final table if it is missing, and
  MERGE (upsert) the staging rows into the final table. Each statement is
  polled until it reaches a terminal status. The first FAILED or ABORTED
  status stops the job.
- `parquet_convertor.py` is a separate converter. It loads JSON, wraps a
  single object in a list, builds a table, casts `id` and `age` to 32-bit
  integers and `created_at` to timestamps (each only if the column is
  there), and writes Parquet. Any failure exits with status 1.

Modules, one per component:

- `Text`: Python's `str.split(c)` and `c.join(...)` for one separator character, with their round trips.
- `JsonValue`: JSON values. `json.loads` and `json.dumps` are parameters.
- `Normaliser`: the format check and the NDJSON rewrite.
- `Endpoint`: reading the workgroup and the region from the endpoint.
- `StatementPlan`: the four SQL statements.
- `Executor`: submitting and polling the statements.
- `Job`: the whole script.
- `ParquetConvertor`: the converter, with a `DataFrame` class whose columns are cast in place.

Modelling choices:

- The object store is a map from (bucket, key) to text. `Normalise` returns
  the writes it makes and the object the load reads.
- The statement service is an oracle. For the k-th submitted statement it
  gives either the exception `execute_statement` raised, or the list of
  answers its `describe_statement` polls return.
- `Execute` is a `for` loop over the steps. For each accepted statement it
  calls `PollStatement`, whose `while` loop is proved equal to the recursive
  `Await`. `Execute` is proved equal to the recursive specification `Run`.
  The ordering and fail-fast properties are proved about `Run`.

## Model

| member | source | states |
|---|---|---|
| Text.SplitOn | app.py:31 | `endpoint.split('.')` always yields at least one part, and no part contains the separator |
| Text.SplitJoin | app.py:52 | splitting a newline-joined list of newline-free parts gives back exactly those parts, if there is at least one |
| Text.JoinSplit | app.py:31 | joining the parts of a split with the separator rebuilds the original text |
| Text.SplitCount | app.py:31-33 | a split has exactly one more part than the text has separators |
| Text.JoinCount | app.py:52 | the joined NDJSON text contains one newline fewer than it has records |
| JsonValue.SerialiseAll | app.py:52 | `[json.dumps(record) for record in data]`: one line per record, in order |
| JsonValue.ParseAllSerialised | app.py:47-52 | if `json.loads` undoes `json.dumps`, parsing each serialised record gives back the records in order |
| Normaliser.S3Uri | app.py:59 | transcription of `f"s3://{bucket}/{key}"`, no contract of its own; `Job.ProcessedUri` states the processed path |
| Normaliser.ToNdjson | app.py:52 | transcription of `'\n'.join(json.dumps(r) for r in data)`, no contract of its own; `Normaliser.NdjsonLines` and `Normaliser.ArrayBranchRoundTrip` state what it holds |
| Normaliser.ProcessedRef | app.py:55 | the processed copy is in the same bucket and never has the same key as the source |
| Normaliser.Classify | app.py:46-70 | a parsed list takes the array branch; a parse failure takes the "assume NDJSON" branch; any other value takes the "use original" branch |
| Normaliser.Normalise | app.py:40-74 | fails only when the source object cannot be read; an array writes exactly one object, `processed/<key>`, holding the NDJSON, and loads from it; any other outcome, including a parse failure, writes nothing and loads from the original object |
| Normaliser.ApplyPuts | app.py:56 | after the writes, the store holds every key it held before plus every key written; the last write's object holds its body; every object no write touches keeps its old body |
| Normaliser.LoadSourceExists | app.py:54-70 | after normalising, the load source exists in the store; the source object is never overwritten; nothing except the processed copy changes; the non-array branches leave the store as it was |
| Normaliser.ArrayBranchBody | app.py:52-59 | in the array branch, the object the load reads holds `'\n'.join(json.dumps(r) for r in data)` |
| Normaliser.NdjsonLines | app.py:52 | for a non-empty array, splitting the NDJSON on newlines gives exactly the serialised records, with one newline between each pair and no trailing newline |
| Normaliser.ArrayBranchLines | app.py:50-59 | the same three facts, for the object the load actually reads |
| Normaliser.ArrayBranchRoundTrip | app.py:47-59 | for a non-empty array, parsing the load source line by line gives back the array's elements in their original order, none added or lost (an empty array is covered by `Normaliser.EmptyArrayWritesEmptyCopy`: its copy is the empty text) |
| Normaliser.EmptyArrayWritesEmptyCopy | app.py:50-56 | an empty JSON array still takes the array branch and writes an empty processed copy |
| Endpoint.ParseEndpoint | app.py:31-33 | succeeds exactly when the endpoint contains at least two dots (otherwise `parts[2]` raises); the workgroup is the dot-free text before the first dot, and the region is the dot-free third segment, followed by nothing or by further dot-led segments |
| StatementPlan.TruncateSql | app.py:82 | transcription of the TRUNCATE statement, no contract of its own |
| StatementPlan.CopySql | app.py:85-90 | transcription of the COPY statement, no contract of its own; `StatementPlan.CopyEmbedsSourceAndRole` states its content |
| StatementPlan.CreateFinalSql | app.py:93 | transcription of the CREATE TABLE statement, no contract of its own |
| StatementPlan.MergeSql | app.py:96-106 | transcription of the MERGE statement, no contract of its own; the `StatementPlan.Merge*` lemmas state its clauses |
| StatementPlan.BuildPlan | app.py:108-113 | the plan has exactly four steps: truncate, copy, create and merge, in that order, each with its statement |
| StatementPlan.PlanNamesFixed | app.py:108-113 | the step names are "Truncate Staging", "Copy to Staging", "Create Final Table", "Merge (Upsert) Data", whatever the tables, the load URI and the role |
| StatementPlan.StepNamesDistinct | app.py:109-112 | no two steps share a name, so a failure message names exactly one step |
| StatementPlan.CopyEmbedsSourceAndRole | app.py:85-90 | the COPY statement loads the staging table from the chosen load URI, with the role ARN, as JSON 'auto' |
| StatementPlan.MergeMatchesOnKey | app.py:97-99 | the ON clause is the whole line `ON <final>.id = <staging>.id`, standing between the MERGE INTO line and the WHEN MATCHED line, so rows are matched on `id` alone |
| StatementPlan.MergeUpdatesNonKeyColumns | app.py:99-104 | between WHEN MATCHED and WHEN NOT MATCHED come exactly the assignments `c = <staging>.c` for the non-key columns `name`, `email`, `age`, `created_at`, in schema order, and nothing else |
| StatementPlan.MergeInsertsAllColumns | app.py:104 | an unmatched row is inserted with the column list `id, name, email, age, created_at`, joined from the schema list |
| StatementPlan.MergeInsertsStagingValues | app.py:105 | the inserted values are the staging table's columns, with the same names and in the same order as the column list |
| Executor.FailureMessage | app.py:136-138 | transcription of the failure message, no contract of its own; `Executor.StatementFailure` states it |
| Executor.Await | app.py:131-144 | polling ends without a terminal status exactly when every answer is pending (SUBMITTED, PICKED or STARTED) |
| Executor.PollStatement | app.py:131-144 | the polling `while` loop computes exactly the result `Await` specifies |
| Executor.Run | app.py:115-148 | never more submissions than steps; none exactly when the plan is empty; a completed run submitted every step |
| Executor.AwaitSkipsPending | app.py:131-144 | answers with a non-terminal status are skipped; only the first terminal answer decides |
| Executor.StatementFailure | app.py:135-138 | when the first terminal status is FAILED or ABORTED, the step raises "<name> Failed: <error>", with "Unknown Error" when the service gave no error text |
| Executor.Execute | app.py:115-148 | the `for` loop over the statements, polling each with `PollStatement`, computes exactly the outcome and the submissions that `Run` specifies |
| Executor.SubmissionsFollowPlan | app.py:115-125 | the k-th `execute_statement` call carries the k-th step's SQL, workgroup, database `dev` and secret; there are never more calls than steps |
| Executor.SubmittedOnlyAfterFinished | app.py:115-142 | step k+1 is submitted only after step k finished |
| Executor.CompletesIffAllFinish | app.py:115-150 | the run completes if and only if every step finishes, and a completed run has submitted every step |
| Executor.StopsAtLastSubmitted | app.py:135-148 | a run that does not complete stops at the last step it submitted; the exception belongs to that step and carries that step's message; no later step is submitted |
| Job.RunJob | app.py:31-150 | a bad endpoint stops the job before the store is read; a missing source stops it before any statement; otherwise the store gets the normaliser's writes and the four statements run against the chosen load source, in the endpoint's region and workgroup; the job succeeds exactly when the run completes |
| Job.CopyReadsChosenSource | app.py:55-89 | the COPY statement reads `s3://<bucket>/processed/<key>` for a JSON array and `s3://<bucket>/<key>` otherwise |
| Job.ProcessedUri | app.py:55-59 | the processed load path is `s3://<bucket>/processed/<key>` |
| Job.ScenarioAllFinish | app.py:115-150 | with tables `stg.x`/`fin.x` and every statement FINISHED after some pending polls, the run completes after four submissions in plan order |
| Job.ScenarioCopyFails | app.py:115-148 | if the copy reports FAILED with "invalid column", the run raises "Copy to Staging Failed: invalid column" after only two submissions |
| ParquetConvertor.Wrapped | parquet_convertor.py:13-14 | a single object becomes a one-element list; a list, or any other value, is left as it is |
| ParquetConvertor.RecordsOf | parquet_convertor.py:13-16 | records exist exactly for a list whose every element is an object; then there is one record per element, holding that element's fields |
| ParquetConvertor.FrameOf | parquet_convertor.py:16 | there is a column exactly for each field that some record has; each column has one cell per record, in record order, holding that record's field, or null where the record lacks it |
| ParquetConvertor.ApplyRule | parquet_convertor.py:20-25 | transcription of one presence-gated cast, no contract of its own; `ParquetConvertor.ApplyRuleEffect` states it |
| ParquetConvertor.Converted | parquet_convertor.py:10-25 | transcription of load, wrap, frame and the three gated casts, no contract of its own; the `ParquetConvertor.Converted*` lemmas state it |
| ParquetConvertor.CastCells | parquet_convertor.py:21-25 | a column cast fails exactly when some cell cannot be cast; otherwise it keeps the column's length and casts every cell |
| ParquetConvertor.DataFrame.FromRecords | parquet_convertor.py:16 | the new frame holds the table of the records, with all columns as high as the number of records |
| ParquetConvertor.DataFrame.CastColumn | parquet_convertor.py:21-25 | replaces only the named column with its cast, keeping the frame's height; on failure the frame is unchanged and the error is returned |
| ParquetConvertor.ApplyRuleEffect | parquet_convertor.py:20-25 | one gated rule fails exactly when its column is present and a cell cannot be cast; it keeps the column set, changes only its own column, and only if that column is present |
| ParquetConvertor.SingleObjectIsOneRow | parquet_convertor.py:13-16 | a single object is read as a table of one row, with one column per field |
| ParquetConvertor.ConvertedKeepsOtherColumns | parquet_convertor.py:16-25 | the casts never add or drop a column, and never touch any column except `id`, `age` and `created_at` |
| ParquetConvertor.ConvertedCastsPresentRuleColumns | parquet_convertor.py:20-25 | a present `id` or `age` column is cast with the int32 cast, and a present `created_at` column with the timestamp cast |
| ParquetConvertor.ConvertedFailsOnlyOnPresentColumns | parquet_convertor.py:20-25 | for well-shaped records, conversion fails if and only if a rule column is present and one of its cells cannot be cast; an absent rule column raises nothing |
| ParquetConvertor.NoRuleColumnsPassThrough | parquet_convertor.py:20-25 | a table with none of the three rule columns is written exactly as it was read |
| ParquetConvertor.ConvertToParquet | parquet_convertor.py:6-33 | exits with status 0 exactly when loading, shaping, all present casts and the write succeed, and then writes the converted table; every other case exits with status 1 and writes nothing; every written column has one cell per loaded record |

## Left out

- `getResolvedOptions`, `sys.argv` and the usage check (app.py:8-28, parquet_convertor.py:35-43) are process I/O. Their values arrive as `Job.Config` or as parameters.
- The boto3 clients are network I/O. The object store is a map, and the statement service is a scripted oracle of replies.
- The service's statement ids are not modelled. The k-th reply belongs to the k-th submission.
- `time.sleep(2)` is wall-clock time and is not modelled.
- The real polling loop has no bound. A finite script that ends before a terminal status gives the outcome `Hung`, which stands for a job that waits forever.
- The JSON grammar and the output format of `json.dumps` are library behaviour. Both are parameters. The only assumptions are that `json.dumps` output is a single non-empty line, and, for the round trip, that `json.loads` undoes it.
- Decoding the object body as UTF-8 (app.py:43) is not modelled: the store holds text. A decode failure, like any `put_object` failure, would be re-raised by the outer handler. Only a missing source object is modelled as a read failure.
- What TRUNCATE, COPY, CREATE TABLE and MERGE do inside the warehouse is not modelled. Only the statement texts are.
- All `print` logging is left out.
- Pandas column order and the NaN it writes for missing fields are not modelled. Columns are a map, and a missing field reads as JSON null.
- The numeric semantics of `astype('int32')`, including 64-to-32-bit wrap-around, and the parsing done by `pd.to_datetime` are library behaviour. They are per-cell cast parameters.
- Parquet and pyarrow output is not modelled. The table handed to `to_parquet` is returned, and the write's failure is a parameter.
- ParquetConvertor.RecordsOf: pandas can build a table from a list of scalars (column `0`), and `pd.DataFrame(None)` builds an empty table from a top-level JSON `null`, which the source then writes before exiting with status 0. The model treats any list that is not a list of objects, and any top-level scalar including `null`, as a failure with exit status 1.
