# ETL SaaS core in Dafny

A model of the two programs at the centre of the ETL service, with proofs about them.

The **upload API** does the following:
- It stores a CSV under `uploads/<user>/<job>_<file>` in the upload bucket.
- It records a QUEUED job in the shared jobs table.
- It serves a caller's own jobs.
- For a finished job, it serves the bucket and key that a download link is signed for.

The **processing function** is triggered by the upload notification. It:
- records a PROCESSING job under a job id of its own;
- reads the CSV with the first delimiter that yields more than one column;
- cleans the frame in six stages;
- registers its schema under an identifier that digests the sorted column names;
- writes the cleaned frame under a partitioned key in the data lake bucket;
- records COMPLETED with the output location, or FAILED with the error text.

Each part of the model:

| module | what it models |
|---|---|
| `Tables` | the data frame: typed columns and rectangular rows of nullable cells |
| `Text` | the Python `str` operations the code relies on: `split`, `split(sep, 1)`, `endswith`, `replace`, `strip` |
| `StringSort`, `Json` | `sorted()` on strings and `json.dumps` of a list of strings, with a decoder that shows the encoding is injective |
| `Transform` | `transform_data`: each stage as a function with its guarantees, and methods that loop over the columns the way the handler does |
| `Schema` | `detect_and_register_schema`: schema description, identifier, and the register-once table as a class |
| `Jobs` | the jobs table shared by both programs: items keyed by `jobId`, where `put_item` replaces the whole item |
| `Handler` | `lambda_handler`, `update_job_status`, `read_csv_from_s3`, `save_to_datalake` |
| `Api` | `upload_csv`, `create_job`, `list_jobs`, `get_job_detail`, `download_parquet` |
| `Pipeline` | properties of the two programs together |

The following come in as parameters instead of being computed:
- Everything outside the code's own logic: the new job id, the clock readings, the fetched object, pandas' `read_csv`, median and quantile, the MD5 digest.
- Whether the schema table, the Parquet writer and the upload `put_object` fail.

In the Handler, all of these travel in one `Env` value.

## Model

| member | source | states |
|---|---|---|
| Handler.OwnerOf | lambda/handler.py:21-22 | The owner is the text between the key's first `/` and the next `/` (or the end); it contains no `/`; a key without `/` gives "anonymous". |
| Handler.OwnerOfKey | lambda/handler.py:19-22 | For a key `prefix/owner/rest` where neither prefix nor owner holds `/`, the owner read back is `owner`. |
| Handler.ReadCsv | lambda/handler.py:73-89 | A fetch error becomes the same text behind the "Error reading CSV: " prefix; every error carries that prefix; a read frame has more than one column. |
| Handler.FirstAccepted | lambda/handler.py:79-83 | The index found is that of a delimiter whose parse has more than one column, and no earlier delimiter's parse does; `None` means no delimiter's parse does. |
| Handler.ReadCsvTakesFirst | lambda/handler.py:73-89 | A fetch error is re-raised with the "Error reading CSV: " prefix. After a successful fetch, a frame is read exactly when some delimiter's parse has more than one column, and it is the parse under the first such delimiter. The "Could not parse" error occurs exactly when no delimiter gives such a parse. |
| Handler.ReadCsvFromS3 | lambda/handler.py:73-89 | The loop over the five delimiters returns exactly the reference `ReadCsv`. |
| Handler.OutputKey | lambda/handler.py:193 | The output key starts with `processed/user=` and ends with `/<job>.parquet`. |
| Handler.OutputLocation | lambda/handler.py:208 | The returned location is `s3://<lake bucket>/` followed by exactly the output key. |
| Handler.OutputKeySegments | lambda/handler.py:190-193 | The output key splits on `/` into `processed`, `user=<u>`, `schema=<s>`, `date=<d>`, `<job>.parquet` when no part holds `/`. |
| Handler.DatalakeBucketPlain | lambda/handler.py:15 | The data lake bucket name holds neither `/` nor `:`. |
| Handler.SaveToDatalake | lambda/handler.py:185-208 | A write error is raised and the lake is unchanged; otherwise the frame is stored under the partitioned key and `s3://<bucket>/<key>` is returned. |
| Handler.UpdateJobStatus | lambda/handler.py:58-71 | The jobs table holds the new item under the job id, whole, and is otherwise unchanged. |
| Handler.CompletedMetadata | lambda/handler.py:45-50 | The COMPLETED metadata records the output location and the source key. |
| Handler.FinalItem | lambda/handler.py:44-55 | The final item belongs to the run's job and the key's owner; it is COMPLETED exactly when the run produced an output location and FAILED exactly when it raised. |
| Handler.JobWrites | lambda/handler.py:17-55 | A run without a record writes nothing, otherwise two items, all for the run's job id. |
| Handler.ReadAndTransform | lambda/handler.py:31-36 | Reading and cleaning give the read error, the trim's `.str` error, or the cleaned frame, exactly as the reference run does. |
| Handler.RegisterAndSave | lambda/handler.py:38-41 | After the frame is cleaned: the result is the saved location or the write error, the schema table is the registry after registering the cleaned frame, and the lake holds the cleaned frame under its key. |
| Handler.ProcessRecord | lambda/handler.py:31-41 | The body of the `try`: its outcome is the output location or the exception text; schema table and lake end as the run's reference states. |
| Handler.LambdaHandler | lambda/handler.py:17-55 | The jobs table is the old one after the run's writes in order; the schema table and the lake are the run's reference states; an event without records changes nothing. |
| Handler.RunLifecycle | lambda/handler.py:17-55 | A run writes nothing without a record. Otherwise it writes exactly two items for its own job id and the key's owner: PROCESSING with the source and start time, then COMPLETED or FAILED. |
| Handler.CompletedExactly | lambda/handler.py:31-50 | The job ends COMPLETED exactly when the read succeeds, the trim raises nothing and the write succeeds; its metadata then holds the source and the output location of the cleaned frame. |
| Handler.FailedMetadata | lambda/handler.py:52-55 | A FAILED job's metadata is only the error text: the read error (with its prefix when the fetch failed), the `.str` accessor error of the trim, or the writer's error. |
| Handler.RunTouchesOnlyItsJob | lambda/handler.py:23-55 | Every other job keeps its item, no other job appears, and the run's job holds the final item. |
| Handler.OutcomeIgnoresSchemaStore | lambda/handler.py:111-127 | The cleaned frame and the outcome do not depend on whether the schema table fails. |
| Handler.SchemaFaultsInvisible | lambda/handler.py:111-127 | A failing schema table changes neither the job writes nor the lake, because the error is swallowed and the id returned. |
| Handler.FinalItemIgnoresSchemaStore | lambda/handler.py:111-127 | Both status items of a run are the same whether or not the schema table fails. |
| Handler.LakeIgnoresSchemaStore | lambda/handler.py:111-127 | The lake after a run is the same whether or not the schema table fails. |
| Handler.CompletedOutputStored | lambda/handler.py:41-50 | A COMPLETED item's `output_path` is `s3://<lake bucket>/<key>`, and the lake holds the cleaned frame under that key. |
| Handler.SchemaCoversProvenance | lambda/handler.py:36-38 | The columns whose names the schema digests include both provenance columns. |
| Transform.DropEmptyRows | lambda/handler.py:136 | Exactly the rows that are not all null are kept, every copy of each, in their order. |
| Transform.NoEmptyRowsKept | lambda/handler.py:136 | A table without an all-null row passes stage 1 unchanged. |
| Transform.DropEmptyRowsIdempotent | lambda/handler.py:136 | Dropping empty rows twice is dropping them once. |
| Transform.DropDuplicates | lambda/handler.py:139 | Every row is kept, none twice, and the original order is preserved. |
| Transform.DistinctKept | lambda/handler.py:139 | Distinct rows none of which was seen before pass the deduplicating scan unchanged. |
| Transform.DropDuplicatesIdempotent | lambda/handler.py:139 | Deduplicating twice is deduplicating once. |
| Transform.DedupAfterIsFirstOccurrences | lambda/handler.py:139 | The deduplicating scan equals the first-occurrence reference from any index on. |
| Transform.DropDuplicatesKeepsFirst | lambda/handler.py:139 | Deduplication keeps exactly the first occurrence of each row, in order (`keep='first'`). |
| Transform.FirstTwoStages | lambda/handler.py:135-139 | After stages 1 and 2: exactly the non-empty input rows remain, distinct, as first occurrences in order. |
| Transform.FillNulls | lambda/handler.py:149 | `fillna(v)` sets every null to `v` and leaves the other cells unchanged. |
| Transform.LastNonNullIsLast | lambda/handler.py:158 | The forward-fill reference is null only for an all-null prefix; otherwise it is a non-null cell followed only by nulls. |
| Transform.ForwardFillIsLastNonNull | lambda/handler.py:158 | `ffill` gives each position the last non-null value at or above it. |
| Transform.FillByForwardFill | lambda/handler.py:155-158 | `ffill` keeps non-null cells and sets each null to the last non-null value above it. |
| Transform.FillCells | lambda/handler.py:142-158 | Non-null cells are kept. Numeric nulls get the median of the present values; if every value is null, nothing changes. Object nulls get "Unknown". Datetime nulls get the last value above. Other dtypes are untouched. |
| Transform.FillChangesOnlyNulls | lambda/handler.py:142-158 | The fill keeps the row count and never changes a non-null cell. |
| Transform.FillColumns | lambda/handler.py:142-158 | The column loop equals the whole-table fill. |
| Transform.ColumnsOfKind | lambda/handler.py:161 | `select_dtypes` gives exactly the columns of that kind, in increasing column order. |
| Transform.OutlierBounds | lambda/handler.py:162-168 | There are no bounds (pandas' NaN) exactly when the column has no values; otherwise the window is four IQRs wide and starts 1.5 IQRs below Q1. |
| Transform.KeepWithin | lambda/handler.py:170-173 | The mask keeps exactly the rows whose cell lies within the bounds, every copy of each, in order. |
| Transform.RemoveOutliersAll | lambda/handler.py:160-173 | The result is an order-keeping subsequence of the input and stays rectangular. |
| Transform.OneMorePass | lambda/handler.py:160-173 | Each pass filters the rectangular result of the passes before it. |
| Transform.LastPassKeeps | lambda/handler.py:160-173 | A row that survives all passes survived the earlier ones and lies within the last pass's bounds. |
| Transform.RemoveOutliersExactly | lambda/handler.py:161-173 | A row survives one pass exactly when its cell lies within that pass's IQR bounds. |
| Transform.SurvivorsWithinNarrowedBounds | lambda/handler.py:160-173 | A surviving row lies within each numeric column's bounds, computed over the rows the earlier columns left. |
| Transform.EmptyColumnRemovesAll | lambda/handler.py:162-173 | A numeric column without values gives NaN bounds, which remove every row. |
| Transform.RemoveOutlierRows | lambda/handler.py:160-173 | The column loop equals the reference, each pass filtering what the previous one left. |
| Transform.TrimCell | lambda/handler.py:177 | A string cell becomes its `strip()`; any other value, and a null, becomes null. |
| Transform.StrAccessorRejects | lambda/handler.py:177 | A column `.str` refuses has at least one value and holds no string; the refusal is pandas' rule that every value lies in one non-string family. |
| Transform.StringsAccepted | lambda/handler.py:177 | `.str` never refuses an object column that holds at least one string. |
| Transform.TrimmedCells | lambda/handler.py:175-177 | In an object column each string becomes its `strip()`, so none starts or ends with whitespace, and nulls and non-strings become null; other columns are unchanged. |
| Transform.TrimAllIdempotent | lambda/handler.py:175-177 | Trimming twice is trimming once. |
| Transform.TrimColumns | lambda/handler.py:175-177 | The loop over the object columns raises the `.str` error exactly when `.str` refuses one of them, and otherwise equals the whole-table trim. |
| Transform.AssignColumn | lambda/handler.py:180-181 | `df[name] = v` overwrites every column of that name with `v` as objects, or appends one column; the other columns keep their cells. |
| Transform.AssignAgain | lambda/handler.py:180-181 | Assigning a value a frame already holds under that name in every row changes nothing. |
| Transform.AssignKeepsOther | lambda/handler.py:180-181 | Assigning one name keeps what another name holds. |
| Transform.ProvenanceColumns | lambda/handler.py:179-181 | Every row carries the capture time and "uploaded" under the two provenance names, and every other column is kept. |
| Transform.ProvenanceAppended | lambda/handler.py:179-181 | On a frame without those names, the two columns are appended in that order to each row. |
| Transform.AddProvenanceIdempotent | lambda/handler.py:179-181 | Adding the provenance columns again with the same capture time changes nothing. |
| Transform.Kept | lambda/handler.py:135-173 | After stages 1 to 4 the rows are as wide as the columns, and there are no more of them than in the input. |
| Transform.Transformed | lambda/handler.py:129-183 | The transform raises, with pandas' message, exactly when `.str` refuses an object column of the stage-4 rows; otherwise it returns the cleaned frame. |
| Transform.TransformedShape | lambda/handler.py:129-183 | A cleaned frame has no more rows than the input, carries both provenance columns, and extends the input's columns by exactly those two when they are new. |
| Transform.TransformData | lambda/handler.py:129-183 | The stages run in the handler's order and raise or return exactly what the reference transform does. |
| Text.Split | lambda/handler.py:21 | `split('/')` gives at least one piece, no piece holds `/`, and there is more than one piece exactly when `/` occurs. |
| Text.JoinSplit | lambda/handler.py:21 | Joining the pieces of `split` with the separator gives back the string. |
| Text.SplitOnce | backend/app/testing.py:133 | `split('/', 1)` gives two pieces exactly when `/` occurs; the first piece holds no `/`, and the pieces joined by `/` give back the string. |
| Text.ReplaceAllAbsent | backend/app/testing.py:133 | `replace` of a pattern that does not occur changes nothing. |
| Text.ReplaceAllLeading | backend/app/testing.py:133 | A leading occurrence is replaced and the rest is scanned after it. |
| Text.ReplaceAll | backend/app/testing.py:133 | `replace` introduces no character that is in neither the text nor the replacement, and with an empty replacement it never lengthens the text. |
| Text.EndsWith | backend/app/testing.py:100 | `endswith(suffix)` holds exactly when the text is some text followed by `suffix`. |
| Text.SuffixSplit | backend/app/testing.py:100 | A text is some text followed by `suffix` exactly when its last `len(suffix)` characters are `suffix`. |
| Text.Strip | lambda/handler.py:177 | `strip()` returns a slice of the input with no whitespace at either end. |
| Text.StripIdempotent | lambda/handler.py:177 | Stripping twice is stripping once. |
| StringSort.Sort | lambda/handler.py:103 | `sorted()` returns a sorted permutation of its input. |
| StringSort.SortedUnique | lambda/handler.py:103 | Two sorted lists holding the same strings are equal. |
| StringSort.SortIgnoresOrder | lambda/handler.py:103 | Lists with the same strings sort to the same list. |
| StringSort.SortOfSorted | lambda/handler.py:103 | Sorting a sorted list changes nothing. |
| Json.DumpsPrintable | lambda/handler.py:103 | `json.dumps` emits only printable ASCII, so `.encode()` gives one byte per character. |
| Json.Dumps | lambda/handler.py:103 | The text is enclosed in `[` and `]`, and is `[]` exactly for the empty list. |
| Json.DumpsRoundTrip | lambda/handler.py:103 | Decoding the output of `json.dumps` gives back the list. |
| Json.DumpsInjective | lambda/handler.py:103 | Different lists of strings give different texts. |
| Schema.Dtypes | lambda/handler.py:99 | The dtype map has exactly the column names as keys; a name's dtype is that of its last column. |
| Schema.SchemaIdOf | lambda/handler.py:102-106 | The identifier is `schema_` followed by the digest of the fingerprint text. |
| Schema.SchemaIdIgnoresOrder | lambda/handler.py:102-106 | Reordering the columns does not change the identifier. |
| Schema.FingerprintTextExact | lambda/handler.py:102-104 | Two column lists give the same digest input exactly when they hold the same names, each the same number of times. |
| Schema.SchemaIdExact | lambda/handler.py:102-106 | With a collision-free digest, two frames share an identifier exactly when their names agree as multisets. |
| Schema.Registered | lambda/handler.py:111-125 | Existing records are kept. The new record is added only under a new identifier and only when the store calls succeed. Keying by id is preserved. |
| Schema.RegisterTwice | lambda/handler.py:111-125 | A second registration under a known identifier changes nothing. |
| Schema.SchemaTable.DetectAndRegister | lambda/handler.py:91-127 | The identifier is returned whatever the store does, and the table ends as the registry after this record. |
| Jobs.GetJob | backend/app/testing.py:79-82 | `get_item` returns the item exactly when the id is present. |
| Jobs.MetadataOf | backend/app/testing.py:128 | The metadata of a processing item; an upload item or a missing job has none. |
| Jobs.JobsByUser | backend/app/testing.py:74-77 | The scan returns exactly the items whose owner equals the given value; a missing value matches none. |
| Jobs.AfterPuts | lambda/handler.py:58-70 | After a sequence of `put_item` calls, the ids are the old ones plus the written ones, the last write wins, unwritten items are kept, and keying by id is preserved. |
| Jobs.AfterTwoPuts | lambda/handler.py:25-50 | Two writes in order are two map updates in order. |
| Jobs.JobsTable.PutItem | lambda/handler.py:62-70 | `put_item` stores the item under its job id, replacing any earlier item whole, and changes no other item. |
| Api.CallerId | backend/app/testing.py:99 | The upload's owner is the `sub` claim, or "anonymous" without one. |
| Api.UploadKey | backend/app/testing.py:104 | With `/`-free parts, the key splits on `/` into `uploads`, the user id, and `<job>_<file>`. |
| Api.KeySegments | backend/app/testing.py:104 | The three `/`-separated segments of an upload key read back as built. |
| Api.QueuedItem | backend/app/testing.py:63-72 | The item is QUEUED, for the given job and user, with no metadata and so no output path. |
| Api.CreateJob | backend/app/testing.py:63-72 | The table holds a QUEUED item with the file name, key and creation time under the job id. |
| Api.UploadCsv | backend/app/testing.py:97-110 | A non-`.csv` name gets 400 with nothing stored. A failing object write raises with nothing recorded. Otherwise the object is stored under the caller's key, the QUEUED job is created, and the id is returned with QUEUED. |
| Api.ListJobs | backend/app/testing.py:112-114 | Exactly the caller's own items are listed; a caller without `sub` sees none. |
| Api.OwnerField | backend/app/testing.py:119 | `job.get('userId')` is present exactly for an existing job. |
| Api.GetJobDetail | backend/app/testing.py:116-121 | 403 exactly when the job's owner differs from the caller's `sub`; otherwise the job. |
| Api.OutputPathOf | backend/app/testing.py:128-131 | A path is found only when the metadata holds a non-empty `output_path`. |
| Api.ParseLocation | backend/app/testing.py:133-135 | After removing `s3://`, the parse succeeds exactly when a `/` remains; the bucket is the `/`-free head and the key is the rest. |
| Api.ParseLocationRoundTrip | backend/app/testing.py:133-135 | `s3://bucket/key`, with a `/`-free bucket and no further `s3://` in `bucket/key`, parses back to that bucket and key. |
| Api.DownloadParquet | backend/app/testing.py:123-138 | 403 when the caller's `sub` is not the job's owner; for the owner, 404 without an output path and otherwise the parse of the recorded path. |
| Api.UploadVisibleToUploader | backend/app/testing.py:97-121 | After an upload, the uploader lists and reads the new job, and anyone else is refused. |
| Api.SublessCallerLockedOut | backend/app/testing.py:112-127 | A caller without `sub` gets 403 on every existing job (detail and download) and an empty list. |
| Api.QueuedJobHasNoDownload | backend/app/testing.py:123-131 | The QUEUED job an upload creates answers its owner's download with 404. |
| Api.DownloadRecordedOutput | backend/app/testing.py:123-135 | The owner of a job whose recorded output is `s3://bucket/key` is sent to that bucket and key. |
| Pipeline.UploadOwnerIsUploader | backend/app/testing.py:104 | The processing function reads the uploader back out of the upload key when the user id holds no `/`. |
| Pipeline.RunLeavesQueuedJob | lambda/handler.py:23 | The run draws its own job id, so the API's QUEUED item is never updated. |
| Pipeline.NoColonInKey | lambda/handler.py:193 | The output key holds no `:` when its parts hold none. |
| Pipeline.NoSchemeInLocation | lambda/handler.py:193-208 | The `bucket/key` part of an output location built from `:`-free parts holds no `s3://`. |
| Pipeline.NoColonInSchemaId | lambda/handler.py:102-106 | The schema identifier holds no `:` when the digest emits none. |
| Pipeline.CompletedItemRecordsKey | lambda/handler.py:45-50 | A completed run's final item names the uploader and records `s3://<lake bucket>/<output key>`. |
| Pipeline.CompletedRunDownloadable | backend/app/testing.py:123-135 | After a completed run over a user's upload, that user's download of the run's job names the lake bucket and the very key the cleaned frame was stored under. |

## Left out

- I/O and external services: S3, DynamoDB, the clock, `uuid4`, pandas parsing, MD5, median and quantile are all parameters. Parquet encoding, snappy compression and presigned URL signing are not modelled; the lake stores the frame itself, and the download returns the bucket and key the link would be signed for.
- Token decoding (`get_current_user`): the caller is modelled as an optional `sub` claim. An invalid token's 401 is not modelled.
- Failures of `put_item` on the jobs table are not modelled: every status write succeeds. In the handler, a failing PROCESSING write would be followed by the FAILED write carrying the store's error, since the job id is already bound.
- The handler's events: only the first record and an empty record list are modelled. Other malformed events (missing fields) raise before the job id exists, so nothing is written, just as with an empty list.
- Handler.OwnerOf: keys are taken as given. URL-encoded keys in notifications are not decoded, and neither is the key in the source.
- Scan pagination: `get_jobs_by_user` sees the whole table.
- Logging output (`print`), CORS, static files, the frontend and the duplicated definitions in the API file are out of scope. The later `create_job`, `get_jobs_by_user` and `get_job` are the ones modelled.
- `timestamp`: the integer time of a status write comes from `Env`.
- Transform: pandas dtype inference is modelled as a column kind fixed by the input, the one `read_csv` infers. Under pandas before version 3, the modelled stages keep those dtypes: an integer column with gaps is already read as float, the fills of stage 3 keep each column's dtype, and the stage-4 mask and the stage-5 assignment change no column's dtype. So a fixed kind loses nothing there. Floating-point semantics of quartiles and comparisons use exact reals.
- Transform.FillColumns: stage 3 writes through `df[col].fillna(..., inplace=True)`, which the model takes as changing the frame. That is pandas' behaviour without Copy-on-Write (the default before pandas 3). Under Copy-on-Write the chained call changes only a copy, and stage 3 would leave the frame as it was.
- Transform.FillCells: a numeric column whose values are all null is left null. Pandas' median is NaN there, and `fillna(NaN)` changes nothing.
- Transform.TrimColumns: `.str.strip()` raises "Can only use .str accessor with string values!" on an object column whose non-null values are all of one non-string family, and the run then ends FAILED with that text. In a column that mixes families, non-string values become null. Pandas tells integers from floats, but the model's single number kind does not, so a column mixing only integers and floats counts as one family here. Pandas refuses that column too.
- Code and intent differ in five places. The model follows the code in each:
  - An all-null numeric column makes the IQR bounds NaN, so the outlier filter removes every row instead of skipping the column (`Transform.EmptyColumnRemovesAll`).
  - The processing function draws a fresh job id, so each upload leaves the API's QUEUED item unchanged beside the processing item (`Pipeline.RunLeavesQueuedJob`).
  - A caller without `sub` uploads under "anonymous", but the read endpoints compare the owner against the missing claim and refuse every job (`Api.SublessCallerLockedOut`).
  - A column the trim cannot clean is meant to be skipped. Instead, `.str.strip()` on an object column whose values hold no string raises, the whole transform aborts, and the run ends FAILED with pandas' message (`Transform.Transformed`, `Transform.TrimColumns`, `Handler.FailedMetadata`).
  - The schema is meant to be fingerprinted from the uploaded columns before cleaning. Instead, it is detected after the transform (lambda/handler.py:36-38), so its identifier also covers the two provenance columns `_processed_at` and `_source_file` (`Handler.SchemaCoversProvenance`).
