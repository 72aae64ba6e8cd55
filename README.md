# NYC taxi data pipeline, modelled in Dafny

This project models the three scripts of a data pipeline for NYC taxi trip
records.

- `pipeline/load_taxi_2019_2020.py` copies the monthly yellow and green trip
  files for 2019 and 2020 from a public release into a cloud storage bucket.
  It first provisions the bucket. It then builds the (kind, year, month)
  catalogue of 48 files and downloads each file once. It drops the failed
  downloads and uploads each remaining file, with bounded retries and a check
  after each upload that the blob exists.
- `pipeline/ingest_data.py` loads one month of green-taxi trips from a
  parquet file into a PostgreSQL table named after the year and month. It
  reads the file in batches and coerces the two timestamp columns and the 17
  declared columns of each batch. It creates the table from the first batch's
  empty head with `replace`, then appends every batch in order.
- `pipeline/ingest_zones.py` loads the taxi-zone lookup CSV. It lower-cases
  the column names and turns their spaces into underscores, then writes the
  frame to `taxi_zones` with `replace`.

The modules are:

- `LoadTaxi` models the replication script.
- `IngestData` and `IngestZones` model the two loaders.
- `Tabular` holds what the two loaders share: frames of named, typed columns;
  the tables of the database; and `Tabular.Database`, a class whose `ToSql`
  method updates the map of tables and appends to a log of `to_sql` calls.
- `Decimal` models `str(int)` and the `{n:02d}` format.
- `PosixPath` models `os.path.join` and `os.path.basename`.
- `Wrappers` and `Collections` are small shared helpers: `Option`,
  duplicate-freedom, and the flattening of equal-width blocks that a nested
  comprehension builds.

Every effect outside the program becomes an input:

- whether `urlretrieve` fetches a file: `retrieved: Task -> bool`;
- what each upload attempt observes: `outcome: nat -> AttemptOutcome`;
- how `get_bucket` ends, and the project's bucket ids;
- the batches the parquet reader yields, and the frame the CSV reader returns;
- the cell-level meaning of the pandas coercions: `conv: (Conversion, Cell) -> Cell`.

The thread pools become sequential maps that keep the input order, which is
what `Executor.map` promises about its results.

Three behaviours of the replication script are worth spelling out, because
the model follows the code exactly:

- `upload_to_gcs` sleeps after every failed attempt, the last one included
  (`pipeline/load_taxi_2019_2020.py:85`). An upload that always fails with the
  default three retries makes three attempts and three sleeps.
- With `max_retries <= 0` the loop body never runs
  (`pipeline/load_taxi_2019_2020.py:75`). Such an upload makes zero attempts
  and fails.
- A `Forbidden` lookup is reported as a name already taken, and it ends the
  process with status 1 (`pipeline/load_taxi_2019_2020.py:45-47`), just like a
  bucket that exists outside the project.

## Model

| member | source | states |
|---|---|---|
| Decimal.NatToString | pipeline/load_taxi_2019_2020.py:18 | the decimal numeral of a natural number: at least one digit, no leading zero, one digit below 10 and two below 100 |
| Decimal.IntToString | pipeline/ingest_data.py:62-63 | `str(n)` of an integer: never empty, and it starts with `-` exactly when `n` is negative |
| Decimal.Pad2 | pipeline/ingest_data.py:63 | `{n:02d}`; its width and read-back are stated by `Decimal.Pad2TwoDigits`, its injectivity by `Decimal.Pad2Injective` |
| Decimal.ParseNatToString | pipeline/load_taxi_2019_2020.py:18 | reading back the decimal numeral of `n` gives `n` |
| Decimal.IntToStringInjective | pipeline/ingest_data.py:62-63 | two integers with the same `str()` numeral are equal |
| Decimal.Pad2TwoDigits | pipeline/load_taxi_2019_2020.py:18 | for 0..99, `{n:02d}` is two digits that read back as `n` |
| Decimal.Pad2Injective | pipeline/ingest_data.py:63 | for 0..99, distinct numbers have distinct `{n:02d}` forms |
| PosixPath.Basename | pipeline/load_taxi_2019_2020.py:71 | `os.path.basename`, the text after the last `/`; stated by `PosixPath.BasenameIsLastComponent` |
| PosixPath.Join | pipeline/load_taxi_2019_2020.py:54 | `os.path.join` for two parts: an absolute second part wins, otherwise one `/` separates them; its base name and injectivity are stated by `PosixPath.BasenameOfJoin` and `PosixPath.JoinInjective` |
| PosixPath.BasenameIsLastComponent | pipeline/load_taxi_2019_2020.py:71 | the base name is a slash-free suffix of the path, preceded by `/` or the start of the path |
| PosixPath.BasenameAfterSlash | pipeline/load_taxi_2019_2020.py:53 | a slash-free name after a directory that ends in `/` is the base name of the whole |
| PosixPath.BasenameOfJoin | pipeline/load_taxi_2019_2020.py:54 | joining a slash-free name to a directory keeps it as the base name |
| PosixPath.JoinInjective | pipeline/load_taxi_2019_2020.py:54 | under a relative directory, different names give different joined paths |
| LoadTaxi.MonthsLiteral | pipeline/load_taxi_2019_2020.py:18 | the month list is exactly "01" through "12" |
| LoadTaxi.MonthsZeroPadded | pipeline/load_taxi_2019_2020.py:18 | twelve two-digit month strings whose values rise from 1 to 12 |
| LoadTaxi.MonthsDistinct | pipeline/load_taxi_2019_2020.py:18 | no month string occurs twice |
| LoadTaxi.Tasks | pipeline/load_taxi_2019_2020.py:94 | the nested comprehension as flattened blocks, kind outermost and month innermost; its length, positions, membership and duplicate-freedom are the lemmas in the next rows |
| LoadTaxi.TasksLength | pipeline/load_taxi_2019_2020.py:94 | the comprehension yields kinds·years·months tasks |
| LoadTaxi.TasksAt | pipeline/load_taxi_2019_2020.py:94 | the task for kind k, year y and month m sits at its row-major position, with the kind outermost and the month innermost |
| LoadTaxi.RowMajor | pipeline/load_taxi_2019_2020.py:94 | that position is (k·years + y)·months + m |
| LoadTaxi.InTasks | pipeline/load_taxi_2019_2020.py:94 | a triple is enumerated if and only if its kind, year and month are each configured |
| LoadTaxi.TasksNoDup | pipeline/load_taxi_2019_2020.py:94 | duplicate-free configuration lists give a duplicate-free task list |
| LoadTaxi.ConfiguredTaskCount | pipeline/load_taxi_2019_2020.py:16-18 | the configured lists give 48 tasks, none of them twice |
| LoadTaxi.ConfiguredTaskEnds | pipeline/load_taxi_2019_2020.py:94 | the first task is yellow 2019-01 and the last is green 2020-12 |
| LoadTaxi.FileName | pipeline/load_taxi_2019_2020.py:52 | the release file name of a task; slash-freedom, the example and injectivity are stated in the next rows |
| LoadTaxi.Url | pipeline/load_taxi_2019_2020.py:53 | the download URL; its last segment is the file name by `LoadTaxi.NamesAgree` |
| LoadTaxi.LocalPath | pipeline/load_taxi_2019_2020.py:54 | the download path under `./data`; its base name is the file name by `LoadTaxi.NamesAgree`, and it is injective by `LoadTaxi.LocalPathInjective` |
| LoadTaxi.FileNameSlashFree | pipeline/load_taxi_2019_2020.py:52 | slash-free task fields give a slash-free file name |
| LoadTaxi.NamesAgree | pipeline/load_taxi_2019_2020.py:52-71 | the last URL segment, the local file's base name and the blob name are all the release file name |
| LoadTaxi.FileNameExample | pipeline/load_taxi_2019_2020.py:51-52 | the yellow January 2019 task names `yellow_tripdata_2019-01.csv.gz` |
| LoadTaxi.FileNameInjective | pipeline/load_taxi_2019_2020.py:52 | tasks whose years and months have equal widths share a file name only when they are equal |
| LoadTaxi.LocalPathInjective | pipeline/load_taxi_2019_2020.py:52-54 | such tasks share a download path only when they are equal |
| LoadTaxi.DownloadFile | pipeline/load_taxi_2019_2020.py:50-63 | the result is a path exactly when the retrieval succeeds, and then it is the local path under `./data` |
| LoadTaxi.DownloadAll | pipeline/load_taxi_2019_2020.py:96-97 | one download outcome per task, in task order |
| LoadTaxi.Successful | pipeline/load_taxi_2019_2020.py:99 | the filter keeps exactly the present paths and never adds any |
| LoadTaxi.RetrievedTasks | pipeline/load_taxi_2019_2020.py:97-99 | the retrieved tasks are exactly the tasks whose download succeeds |
| LoadTaxi.UploadInputsAreRetrievedPaths | pipeline/load_taxi_2019_2020.py:97-99 | the upload inputs are, in order, the local paths of the retrieved tasks, and there are no more of them than tasks |
| LoadTaxi.FailedDownloadNotUploaded | pipeline/load_taxi_2019_2020.py:97-102 | the path of a task whose download failed is never an upload input |
| LoadTaxi.ConfiguredWidths | pipeline/load_taxi_2019_2020.py:16-18 | every configured task has a four-character year and a two-character month |
| LoadTaxi.ConfiguredSlashFree | pipeline/load_taxi_2019_2020.py:16-18 | no configured kind, year or month contains `/` |
| LoadTaxi.ConfiguredBlobNamesDistinct | pipeline/load_taxi_2019_2020.py:52-71 | the blob of a configured task is its release file name, and two configured tasks never share a blob |
| LoadTaxi.UploadFrom | pipeline/load_taxi_2019_2020.py:75-88 | the retry loop from a given attempt on, as a recursive function; stated by `LoadTaxi.UploadFromSpec` |
| LoadTaxi.Upload | pipeline/load_taxi_2019_2020.py:70-88 | `upload_to_gcs` as a function of the attempt outcomes; stated by `LoadTaxi.UploadContract` |
| LoadTaxi.UploadFromSpec | pipeline/load_taxi_2019_2020.py:75-88 | from any attempt on: success at the first verified attempt within the budget, otherwise the budget used up; one sleep after each failed attempt |
| LoadTaxi.UploadContract | pipeline/load_taxi_2019_2020.py:70-88 | the blob is the file's base name; success if and only if some attempt among the first `max_retries` verifies, and then at the first such one; at most `max_retries` attempts (none when it is not positive); a sleep after every failed attempt, the last included |
| LoadTaxi.AlwaysRaisingUpload | pipeline/load_taxi_2019_2020.py:23-88 | with the default three retries, an upload that always raises fails after three attempts and three sleeps |
| LoadTaxi.UploadToGcs | pipeline/load_taxi_2019_2020.py:70-88 | the retry loop, with its early return and unconditional sleep, computes exactly the upload outcome above |
| LoadTaxi.CreateBucket | pipeline/load_taxi_2019_2020.py:32-47 | the run proceeds exactly when the bucket is found and listed in the project; a bucket is created exactly when it is not found, under the given name at US-CENTRAL1; every other outcome exits with status 1 |
| LoadTaxi.ProvisioningByState | pipeline/load_taxi_2019_2020.py:32-47 | an absent bucket is created once at US-CENTRAL1; an owned one is used as it is; a foreign or forbidden one exits with status 1; the run goes on exactly in the first two cases |
| LoadTaxi.ProvisioningIdempotent | pipeline/load_taxi_2019_2020.py:32-44 | after a successful provisioning, a second one finds the bucket owned and creates nothing |
| LoadTaxi.Replicate | pipeline/load_taxi_2019_2020.py:91-102 | the run aborts with status 1 exactly when provisioning fails; otherwise it enumerates the 48 tasks, downloads each once in order, filters the failures and uploads each survivor once with three retries |
| LoadTaxi.CompletedRunUploadsOnlyRetrieved | pipeline/load_taxi_2019_2020.py:94-102 | a configured task whose download failed is never uploaded, and at most 48 files are |
| Tabular.Head0 | pipeline/ingest_data.py:92 | `head(0)` has no rows and the same schema as the frame |
| Tabular.Written | pipeline/ingest_data.py:92-104 | `replace` yields a fresh table of the frame; `append` adds the frame after an existing table's chunks and keeps its schema |
| Tabular.ReplaceIdempotent | pipeline/ingest_zones.py:41-46 | writing the same frame twice with `replace` leaves what one write leaves |
| Tabular.Database.constructor | pipeline/ingest_data.py:32 | connecting to the database finds the tables it already holds, with no calls made yet |
| Tabular.Database.ToSql | pipeline/ingest_zones.py:41-46 | one call is logged and only the named table changes, to what the mode gives |
| IngestZones.LowerChar | pipeline/ingest_zones.py:35 | an uppercase ASCII letter becomes its lowercase form; every other character is kept |
| IngestZones.NormalizeName | pipeline/ingest_zones.py:35 | one column name lower-cased, then spaces to underscores; stated by the pointwise and idempotence lemmas below |
| IngestZones.NormalizeColumns | pipeline/ingest_zones.py:35 | every column name normalised; stated by `IngestZones.NormalizeColumnsPointwise` |
| IngestZones.LowerPointwise | pipeline/ingest_zones.py:35 | lower-casing keeps the length and maps each character on its own |
| IngestZones.ReplaceSpacesPointwise | pipeline/ingest_zones.py:35 | replacing spaces keeps the length and turns exactly the spaces into `_` |
| IngestZones.NormalizePointwise | pipeline/ingest_zones.py:35 | a normalised name keeps the length; uppercase letters are lowered, spaces become `_`, and every other character is kept |
| IngestZones.NormalizedIsClean | pipeline/ingest_zones.py:35 | a normalised name has no space and no uppercase ASCII letter |
| IngestZones.NormalizeFixesClean | pipeline/ingest_zones.py:35 | a name without spaces or uppercase letters is left alone |
| IngestZones.NormalizeIdempotent | pipeline/ingest_zones.py:35 | normalising twice is the same as normalising once |
| IngestZones.NormalizeOrderIrrelevant | pipeline/ingest_zones.py:35 | replacing spaces before lower-casing gives the same name |
| IngestZones.NormalizeColumnsPointwise | pipeline/ingest_zones.py:35 | the column count and order survive; the i-th new name is the normalised i-th old name |
| IngestZones.Rename | pipeline/ingest_zones.py:35 | the renamed frame has the normalised names, with the same dtypes, cells and row count |
| IngestZones.RenameIdempotent | pipeline/ingest_zones.py:35 | renaming an already renamed frame changes nothing |
| IngestZones.Run | pipeline/ingest_zones.py:37-46 | exactly one `replace` call on `taxi_zones`; that table becomes the renamed frame and no other table changes |
| IngestData.ParquetPath | pipeline/ingest_data.py:61-62 | the month's parquet path; pinned by `IngestData.ParquetPathExample`, its month digits by `IngestData.MonthIsTwoDigits`, its injectivity by `IngestData.ParquetPathInjective` |
| IngestData.TableName | pipeline/ingest_data.py:63 | the month's table name; pinned by the two examples below, its month digits by `IngestData.MonthIsTwoDigits`, its injectivity by `IngestData.TableNameInjective` |
| IngestData.DefaultTableName | pipeline/ingest_data.py:63 | the defaults (2025, 11) name `green_taxi_data_2025_11` |
| IngestData.JanuaryTableName | pipeline/ingest_data.py:63 | month 1 is zero-padded: `green_taxi_data_2019_01` |
| IngestData.ParquetPathExample | pipeline/ingest_data.py:61-62 | the defaults read `data/raw/green_tripdata_2025-11.parquet` |
| IngestData.MonthIsTwoDigits | pipeline/ingest_data.py:62-63 | for months 1..99, both names end the month's part with two digits that read back as the month |
| IngestData.TableNameInjective | pipeline/ingest_data.py:63 | for months 0..99, distinct (year, month) pairs get distinct table names |
| IngestData.ParquetPathInjective | pipeline/ingest_data.py:62 | for months 0..99, distinct (year, month) pairs read distinct files |
| IngestData.Dispatch | pipeline/ingest_data.py:83-88 | a coercion is chosen exactly for "Int64", "float64" and "string", and it produces that dtype |
| IngestData.Coerce | pipeline/ingest_data.py:76-88 | a coerced column keeps its name and length, takes the target dtype and converts each cell |
| IngestData.SetCoerced | pipeline/ingest_data.py:76 | every column with the name is coerced and the others are untouched |
| IngestData.DatesApplied | pipeline/ingest_data.py:74-76 | an unlisted column is untouched; a listed one becomes a datetime |
| IngestData.DtypesApplied | pipeline/ingest_data.py:79-88 | an undeclared column is untouched, and the name and length always survive |
| IngestData.DateColumnCoercedOnce | pipeline/ingest_data.py:74-76 | a date column listed once is coerced exactly once |
| IngestData.DtypeColumnDispatched | pipeline/ingest_data.py:79-88 | a column declared once is coerced by its declared kind when the kind is known, and left alone otherwise |
| IngestData.DateStepAdvances | pipeline/ingest_data.py:74-76 | each round of the datetime loop extends the pass by one listed column |
| IngestData.DtypeStepAdvances | pipeline/ingest_data.py:79-88 | each round of the dtype loop extends the pass by one declaration |
| IngestData.CoerceDates | pipeline/ingest_data.py:73-76 | the loop leaves every column as the datetime pass over the listed columns makes it, and keeps the row count |
| IngestData.EnforceDtypes | pipeline/ingest_data.py:78-88 | the loop with its skip and `if`/`elif` chain leaves every column as the dtype pass makes it |
| IngestData.DeclarationsDistinct | pipeline/ingest_data.py:35-59 | no name is declared twice, and no date column is among the typed ones |
| IngestData.DeclaredKindsDispatch | pipeline/ingest_data.py:35-53 | every declared dtype is one the dispatch handles |
| IngestData.CoercionEffect | pipeline/ingest_data.py:73-88 | on a batch the rows and names survive; an undeclared column is untouched; a date column is coerced to datetime; a typed column is coerced to exactly its declared dtype |
| IngestData.CoerceBatch | pipeline/ingest_data.py:73-88 | the datetime pass, then the dtype pass |
| IngestData.CoercedBatches | pipeline/ingest_data.py:69-88 | one coerced frame per batch, in stream order |
| IngestData.IngestCalls | pipeline/ingest_data.py:90-104 | the `to_sql` calls of the batch loop; stated by `IngestData.CreateOnceThenAppend`, `IngestData.AppendsInStreamOrder` and `IngestData.AppendedRowsTotal` |
| IngestData.IngestCallsFirst | pipeline/ingest_data.py:90-104 | the first batch brings the schema-only `replace` and its own `append` |
| IngestData.IngestCallsSnoc | pipeline/ingest_data.py:96-104 | every later batch brings one `append` of its rows |
| IngestData.ReplaceOnce | pipeline/ingest_data.py:90-93 | a non-empty stream issues exactly one `replace`, an empty one none |
| IngestData.CreateOnceThenAppend | pipeline/ingest_data.py:90-104 | no batches, no calls; otherwise the first call is the schema-only `replace`, the only one, and all later calls append |
| IngestData.AppendsInStreamOrder | pipeline/ingest_data.py:96-104 | batch i is appended by call i + 1 with its own row count |
| IngestData.AppendedRowsTotal | pipeline/ingest_data.py:96-106 | the appended rows add up to the rows of all batches |
| IngestData.CoercedRows | pipeline/ingest_data.py:71-88 | coercion never changes the number of rows |
| IngestData.FirstBatchWrites | pipeline/ingest_data.py:91-104 | creating the table from the empty head and appending the batch leaves a one-batch table |
| IngestData.NextBatchWrites | pipeline/ingest_data.py:96-104 | appending a later batch extends the table and the log by that batch |
| IngestData.WriteBatch | pipeline/ingest_data.py:90-104 | the writes for one batch extend the table and the call log by that batch |
| IngestData.IngestBatches | pipeline/ingest_data.py:66-106 | the progress count is the total of the rows; the log gains the ingest calls of the coerced batches; the table holds exactly those batches |
| IngestData.Run | pipeline/ingest_data.py:61-106 | with no batch, no table changes; otherwise the month's table holds the first batch's schema, its empty head and every coerced batch in order, and no other table changes |

## Left out

- The network, the object store and the filesystem are not modelled. `urlretrieve`, `get_bucket`, `list_buckets`, `create_bucket`, `upload_from_filename` and the existence check of `verify_gcs_upload` are outcomes passed in.
- `create_bucket` is modelled only for the lookups that end in found, not found or forbidden. Any other exception it raises, such as a conflict on creation or a failing `list_buckets`, is not part of this model.
- The thread pools run their tasks concurrently; the model runs them one after another in input order. Interleaving of output is not modelled.
- The three-second sleep duration, the upload chunk size and the pool size are not modelled. Only the number of sleeps is counted.
- `print`, `tqdm` and the `click` options that only configure the connection (user, password, host, port, database) are not modelled. The connection URL is not part of this model.
- `sys.exit(1)` ends the run as the value `Aborted(1)`.
- The creation of the download directory at import time is not modelled.
- The parquet reader and `batch_size` are not modelled: the batches are an input, however they were cut. The `chunksize` and `method="multi"` arguments of the append only affect how rows are sent, so they are not modelled.
- The zone CSV read is not modelled: the frame is an input.
- `pd.to_datetime` and `pd.to_numeric` with `errors="coerce"` are modelled as an input cell function that never raises.
- IngestData.SetCoerced: does not model a batch with two columns of the same declared name; pandas raises on such a batch before it is written, while the model coerces every copy.
- IngestData.Coerce: does not model `astype("Int64")` raising on a fractional number that `to_numeric` produced, because the cell semantics are an input.
- IngestZones.LowerChar: lowers only the ASCII letters A–Z; Python's `str.lower` also lowers other Unicode letters.
- Tabular.Written: does not model a database rejecting an append whose columns differ from the table's schema, or the column types SQLAlchemy would choose.
- IngestData.TableNameInjective: holds for months 0..99 only; larger months have wider numerals and are not covered.
- IngestData.ParquetPathInjective: holds for months 0..99 only, for the same reason.
- LoadTaxi.FileNameInjective: requires equal year and month widths, which every configured task has (`LoadTaxi.ConfiguredWidths`).
