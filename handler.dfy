/** The processing function (`lambda_handler`): for the first record of an
    upload notification it records a PROCESSING job, reads the CSV with the
    first delimiter that yields more than one column, cleans it, registers its
    schema, writes it to the data lake, and records COMPLETED with the output
    location, or FAILED with the error text.

    What the environment decides (the new job id, the clock, the object's
    content, pandas' parser, the digest, the outcome of the store and lake
    calls) comes in as one `Env` value. */
module Handler {
  import opened Wrappers
  import opened Tables
  import opened Jobs
  import Text
  import Transform
  import Schema

  const DatalakeBucket: string := "data-lake-bucket-processed"
  const Delimiters: seq<string> := [",", ", ", ":", "\t", "|"]
  const ReadErrorPrefix: string := "Error reading CSV: "
  const NoDelimiterMessage: string := "Could not parse CSV with any common delimiter"

  /** One record of the notification: the bucket name and the object key. */
  datatype S3Record = S3Record(bucket: string, key: string)
  datatype Event = Event(records: seq<S3Record>)

  /** Everything the handler takes from outside its own code. */
  datatype Env = Env(
    jobId: string,                                  // uuid4()
    startedAt: string,                              // isoformat() before reading
    endedAt: string,                                // isoformat() after saving
    processingStamp: int,                           // timestamp of the first status write
    finalStamp: int,                                // timestamp of the last status write
    fetched: Result<string, string>,                // object body decoded as UTF-8, or the error text
    parse: (string, string) -> Result<Table, string>, // read_csv(content, delimiter)
    processedAt: string,                            // isoformat() inside the transform
    median: seq<real> -> real,
    quantile: (seq<real>, real) -> real,
    digest: string -> string,                       // MD5 hex digest
    schemaStoreFails: bool,                         // get_item / put_item on the schema table raised
    date: string,                                   // strftime('%Y-%m-%d')
    writeError: Option<string>)                     // to_parquet / put_object raised

  // ---------------------------------------------------------------------------
  // Owner of the uploaded object

  /** The second `/`-separated segment of the key, or "anonymous" for a key
      without `/`: the text from just after the first `/` up to the next `/`
      or the end. */
  function OwnerOf(key: string): (owner: string)
    ensures '/' !in owner
    ensures '/' !in key ==> owner == Anonymous
    ensures '/' in key ==>
      var i := Text.Find(key, '/', 0);
      var e := i + 1 + |owner|;
      e <= |key| && key[i + 1..e] == owner && (e == |key| || key[e] == '/')
  {
    var parts := Text.Split(key, '/');
    if |parts| > 1 then
      Text.SplitSecond(key, '/');
      var i := Text.Find(key, '/', 0);
      var rest := key[i + 1..];
      assert key[i + 1..i + 1 + Text.Find(rest, '/', 0)] == rest[..Text.Find(rest, '/', 0)];
      parts[1]
    else Anonymous
  }

  /** A key `prefix/owner/rest` belongs to `owner` when neither the prefix nor
      the owner contains `/`. */
  lemma OwnerOfKey(prefix: string, owner: string, rest: string)
    requires '/' !in prefix && '/' !in owner
    ensures OwnerOf(prefix + "/" + owner + "/" + rest) == owner
  {
    var key := prefix + "/" + owner + "/" + rest;
    assert key == prefix + ['/'] + (owner + ['/'] + rest);
    Text.SplitAfterHead(prefix, '/', owner + ['/'] + rest);
    Text.SplitAfterHead(owner, '/', rest);
  }

  // ---------------------------------------------------------------------------
  // read_csv_from_s3

  /** A parse that yields a frame of more than one column is taken. */
  predicate Accepted(attempt: Result<Table, string>) {
    attempt.Ok? && |attempt.value.columns| > 1
  }

  /** The index of the first delimiter whose parse is taken. */
  function FirstAccepted(content: string, parse: (string, string) -> Result<Table, string>, ds: seq<string>)
    : (r: Option<nat>)
    ensures r.Some? ==> r.value < |ds| && Accepted(parse(content, ds[r.value]))
    ensures forall j :: 0 <= j < |ds| && (r.None? || j < r.value) ==> !Accepted(parse(content, ds[j]))
  {
    if ds == [] then None
    else if Accepted(parse(content, ds[0])) then Some(0)
    else
      var rest := FirstAccepted(content, parse, ds[1..]);
      assert forall j :: 1 <= j < |ds| ==> ds[j] == ds[1..][j - 1];
      if rest.None? then None else Some(rest.value + 1)
  }

  /** What `read_csv_from_s3` returns or raises. */
  function ReadCsv(fetched: Result<string, string>, parse: (string, string) -> Result<Table, string>)
    : (r: Result<Table, string>)
    ensures fetched.Err? ==> r == Err(ReadErrorPrefix + fetched.error)
    ensures r.Ok? ==> |r.value.columns| > 1
    ensures r.Err? ==> |r.error| >= |ReadErrorPrefix| && r.error[..|ReadErrorPrefix|] == ReadErrorPrefix
  {
    match fetched
    case Err(e) => Err(ReadErrorPrefix + e)
    case Ok(content) =>
      match FirstAccepted(content, parse, Delimiters)
      case Some(i) => Ok(parse(content, Delimiters[i]).value)
      case None => Err(ReadErrorPrefix + NoDelimiterMessage)
  }

  /** A fetch error is reported with the prefix; otherwise the frame is the
      parse under the first delimiter that yields more than one column, and
      the error is the fixed message exactly when no delimiter does. */
  lemma ReadCsvTakesFirst(fetched: Result<string, string>, parse: (string, string) -> Result<Table, string>)
    ensures fetched.Err? ==> ReadCsv(fetched, parse) == Err(ReadErrorPrefix + fetched.error)
    ensures fetched.Ok? && ReadCsv(fetched, parse).Ok? ==>
      exists i :: (0 <= i < |Delimiters|
        && parse(fetched.value, Delimiters[i]) == Ok(ReadCsv(fetched, parse).value)
        && |ReadCsv(fetched, parse).value.columns| > 1
        && forall j :: 0 <= j < i ==> !Accepted(parse(fetched.value, Delimiters[j])))
    ensures fetched.Ok? ==>
      (ReadCsv(fetched, parse).Ok? <==> exists j :: 0 <= j < |Delimiters| && Accepted(parse(fetched.value, Delimiters[j])))
    ensures fetched.Ok? ==>
      ((ReadCsv(fetched, parse) == Err(ReadErrorPrefix + NoDelimiterMessage))
        <==> (forall j :: 0 <= j < |Delimiters| ==> !Accepted(parse(fetched.value, Delimiters[j]))))
  {
    if fetched.Ok? {
      var r := FirstAccepted(fetched.value, parse, Delimiters);
      if r.Some? {
        assert Accepted(parse(fetched.value, Delimiters[r.value]));
      }
    }
  }

  /** `read_csv_from_s3`: tries the delimiters in order. */
  method ReadCsvFromS3(fetched: Result<string, string>, parse: (string, string) -> Result<Table, string>)
    returns (r: Result<Table, string>)
    ensures r == ReadCsv(fetched, parse)
  {
    if fetched.Err? {
      return Err(ReadErrorPrefix + fetched.error);
    }
    var content := fetched.value;
    var i := 0;
    while i < |Delimiters|
      invariant 0 <= i <= |Delimiters|
      invariant forall j :: 0 <= j < i ==> !Accepted(parse(content, Delimiters[j]))
    {
      var attempt := parse(content, Delimiters[i]);
      if attempt.Ok? && |attempt.value.columns| > 1 {
        return Ok(attempt.value);
      }
      i := i + 1;
    }
    return Err(ReadErrorPrefix + NoDelimiterMessage);
  }

  // ---------------------------------------------------------------------------
  // save_to_datalake

  /** The partitioned object key of a job's output: under `processed/`, a
      Parquet file named after the job. */
  function OutputKey(userId: string, schemaId: string, date: string, jobId: string): (key: string)
    ensures |key| > 15 && key[..15] == "processed/user="
    ensures Text.EndsWith(key, "/" + jobId + ".parquet")
  {
    "processed/user=" + userId + "/schema=" + schemaId + "/date=" + date + "/" + jobId + ".parquet"
  }

  /** The location recorded as `output_path`: the key in the data lake bucket. */
  function OutputLocation(userId: string, schemaId: string, date: string, jobId: string): (loc: string)
    ensures var prefix := "s3://" + DatalakeBucket + "/";
      |loc| > |prefix| && loc[..|prefix|] == prefix && loc[|prefix|..] == OutputKey(userId, schemaId, date, jobId)
  {
    "s3://" + DatalakeBucket + "/" + OutputKey(userId, schemaId, date, jobId)
  }

  /** The key reads back as its five partition segments when no part holds `/`. */
  /** The output key is its five segments joined by `/`. */
  lemma OutputKeyJoined(userId: string, schemaId: string, date: string, jobId: string)
    ensures OutputKey(userId, schemaId, date, jobId) ==
      "processed" + ['/'] + (("user=" + userId) + ['/'] + (("schema=" + schemaId) + ['/'] +
        (("date=" + date) + ['/'] + (jobId + ".parquet"))))
  {
  }

  lemma OutputKeySegments(userId: string, schemaId: string, date: string, jobId: string)
    requires '/' !in userId && '/' !in schemaId && '/' !in date && '/' !in jobId
    ensures Text.Split(OutputKey(userId, schemaId, date, jobId), '/')
      == ["processed", "user=" + userId, "schema=" + schemaId, "date=" + date, jobId + ".parquet"]
  {
    var s0, s1, s2, s3, s4 := "processed", "user=" + userId, "schema=" + schemaId, "date=" + date, jobId + ".parquet";
    var t3 := s3 + ['/'] + s4;
    var t2 := s2 + ['/'] + t3;
    var t1 := s1 + ['/'] + t2;
    OutputKeyJoined(userId, schemaId, date, jobId);
    calc {
      Text.Split(s0 + ['/'] + t1, '/');
      == { Text.SplitAfterHead(s0, '/', t1); }
      [s0] + Text.Split(t1, '/');
      == { Text.SplitAfterHead(s1, '/', t2); }
      [s0] + ([s1] + Text.Split(t2, '/'));
      == { Text.SplitAfterHead(s2, '/', t3); }
      [s0] + ([s1] + ([s2] + Text.Split(t3, '/')));
      == { Text.SplitAfterHead(s3, '/', s4); }
      [s0] + ([s1] + ([s2] + ([s3] + Text.Split(s4, '/'))));
      == { assert '/' !in s4; }
      [s0, s1, s2, s3, s4];
    }
  }

  /** The bucket name is a single path segment without a scheme separator. */
  lemma DatalakeBucketPlain()
    ensures '/' !in DatalakeBucket && ':' !in DatalakeBucket
  {
    assert forall k :: 0 <= k < |DatalakeBucket| ==> DatalakeBucket[k] != '/' && DatalakeBucket[k] != ':';
  }

  /** The data lake bucket: object key to the frame stored there as Parquet. */
  class DataLake {
    var objects: map<string, Table>

    constructor()
      ensures objects == map[]
    {
      objects := map[];
    }
  }

  /** `save_to_datalake`: stores the frame under the partitioned key and returns
      its location, or raises with the writer's or the store's error. */
  method SaveToDatalake(lake: DataLake, t: Table, userId: string, schemaId: string, jobId: string,
                        date: string, writeError: Option<string>)
    returns (r: Result<string, string>)
    modifies lake
    ensures writeError.Some? ==> r == Err(writeError.value) && lake.objects == old(lake.objects)
    ensures writeError.None? ==>
      (r == Ok(OutputLocation(userId, schemaId, date, jobId))
        && lake.objects == old(lake.objects)[OutputKey(userId, schemaId, date, jobId) := t])
  {
    if writeError.Some? {
      return Err(writeError.value);
    }
    var key := OutputKey(userId, schemaId, date, jobId);
    lake.objects := lake.objects[key := t];
    r := Ok("s3://" + DatalakeBucket + "/" + key);
  }

  // ---------------------------------------------------------------------------
  // update_job_status

  /** `update_job_status`: one `put_item` of the whole status item. */
  method UpdateJobStatus(jobs: JobsTable, jobId: string, userId: string, status: Status,
                         metadata: map<string, string>, stamp: int)
    modifies jobs
    ensures jobs.items == old(jobs.items)[jobId := JobItem(jobId, userId, status, Progress(stamp, metadata))]
  {
    jobs.PutItem(JobItem(jobId, userId, status, Progress(stamp, metadata)));
  }

  // ---------------------------------------------------------------------------
  // lambda_handler: what one run does

  /** The cleaned frame of a run, or the text of the exception the read or
      the transform raised. */
  function Prepared(env: Env): Result<Table, string> {
    match ReadCsv(env.fetched, env.parse)
    case Err(e) => Err(e)
    case Ok(df) => Transform.Transformed(df, env.processedAt, env.median, env.quantile)
  }

  /** The schema identifier of a cleaned frame. */
  function RunSchemaId(t: Table, env: Env): string {
    Schema.SchemaIdOf(Names(t.columns), env.digest)
  }

  /** What saving a cleaned frame gives: the output location, or the writer's error. */
  function Saved(rec: S3Record, t: Table, env: Env): Result<string, string> {
    if env.writeError.Some? then Err(env.writeError.value)
    else Ok(OutputLocation(OwnerOf(rec.key), RunSchemaId(t, env), env.date, env.jobId))
  }

  /** The output location, or the text of the exception that ended the run. */
  function Outcome(rec: S3Record, env: Env): Result<string, string> {
    match Prepared(env)
    case Err(e) => Err(e)
    case Ok(t) => Saved(rec, t, env)
  }

  /** The schema table after a cleaned frame was registered. */
  function RegisteredAfter(items: map<string, Schema.SchemaRecord>, rec: S3Record, t: Table, env: Env)
    : map<string, Schema.SchemaRecord>
  {
    Schema.Registered(items,
      Schema.SchemaRecord(RunSchemaId(t, env), OwnerOf(rec.key), Schema.InfoOf(t.columns), rec.key),
      env.schemaStoreFails)
  }

  /** The data lake after a cleaned frame was saved. */
  function StoredAfter(objects: map<string, Table>, rec: S3Record, t: Table, env: Env): map<string, Table> {
    if env.writeError.Some? then objects
    else objects[OutputKey(OwnerOf(rec.key), RunSchemaId(t, env), env.date, env.jobId) := t]
  }

  function StartedMetadata(rec: S3Record, env: Env): map<string, string> {
    map["source_bucket" := rec.bucket, "source_key" := rec.key, "started_at" := env.startedAt]
  }

  /** The metadata of a COMPLETED item: the source, the output location and
      the end time. */
  function CompletedMetadata(rec: S3Record, path: string, endedAt: string): (m: map<string, string>)
    ensures "output_path" in m && m["output_path"] == path
    ensures "source_key" in m && m["source_key"] == rec.key
  {
    map["source_bucket" := rec.bucket, "source_key" := rec.key, "output_path" := path, "ended_at" := endedAt]
  }

  function StartedItem(rec: S3Record, env: Env): JobItem {
    JobItem(env.jobId, OwnerOf(rec.key), Processing, Progress(env.processingStamp, StartedMetadata(rec, env)))
  }

  /** The last status item of a run: COMPLETED exactly when the run has an
      output location, FAILED otherwise, always for the run's job and owner. */
  function FinalItem(rec: S3Record, env: Env): (item: JobItem)
    ensures item.jobId == env.jobId && item.userId == OwnerOf(rec.key) && item.body.Progress?
    ensures item.status == Completed <==> Outcome(rec, env).Ok?
    ensures item.status == Failed <==> Outcome(rec, env).Err?
  {
    match Outcome(rec, env)
    case Ok(path) =>
      JobItem(env.jobId, OwnerOf(rec.key), Completed, Progress(env.finalStamp,
        CompletedMetadata(rec, path, env.endedAt)))
    case Err(e) =>
      JobItem(env.jobId, OwnerOf(rec.key), Failed, Progress(env.finalStamp, map["error" := e]))
  }

  /** The status items a run puts, in order. Without a record the handler fails
      before it has a job id, and writes nothing. */
  function JobWrites(event: Event, env: Env): (writes: seq<JobItem>)
    ensures |writes| == if event.records == [] then 0 else 2
    ensures forall k :: 0 <= k < |writes| ==> writes[k].jobId == env.jobId
  {
    if event.records == [] then []
    else [StartedItem(event.records[0], env), FinalItem(event.records[0], env)]
  }

  /** The schema table after a run: a cleaned frame is registered. */
  function SchemasAfter(items: map<string, Schema.SchemaRecord>, event: Event, env: Env)
    : map<string, Schema.SchemaRecord>
  {
    if event.records == [] then items
    else
      match Prepared(env)
      case Err(_) => items
      case Ok(t) => RegisteredAfter(items, event.records[0], t, env)
  }

  /** The data lake after a run. */
  function LakeAfter(objects: map<string, Table>, event: Event, env: Env): map<string, Table> {
    if event.records == [] then objects
    else
      match Prepared(env)
      case Err(_) => objects
      case Ok(t) => StoredAfter(objects, event.records[0], t, env)
  }

  /** Register, save: the steps after the frame was cleaned. */
  method RegisterAndSave(rec: S3Record, t: Table, env: Env, schemas: Schema.SchemaTable, lake: DataLake)
    returns (outcome: Result<string, string>)
    modifies schemas, lake
    ensures outcome == Saved(rec, t, env)
    ensures schemas.items == RegisteredAfter(old(schemas.items), rec, t, env)
    ensures lake.objects == StoredAfter(old(lake.objects), rec, t, env)
  {
    var userId := OwnerOf(rec.key);
    var schemaId := schemas.DetectAndRegister(t, userId, rec.key, env.digest, env.schemaStoreFails);
    outcome := SaveToDatalake(lake, t, userId, schemaId, env.jobId, env.date, env.writeError);
  }

  /** Read, clean: the steps before the frame is registered. The result is
      the cleaned frame, or the text of the exception either step raises. */
  method ReadAndTransform(env: Env) returns (cleaned: Result<Table, string>)
    ensures cleaned == Prepared(env)
  {
    var read := ReadCsvFromS3(env.fetched, env.parse);
    if read.Err? {
      return Err(read.error);
    }
    cleaned := Transform.TransformData(read.value, env.processedAt, env.median, env.quantile);
  }

  /** The body of the handler's `try` after the PROCESSING write: read, clean,
      register, save. Its result is the output location, or the text of the
      exception that ends the run. */
  method ProcessRecord(rec: S3Record, env: Env, schemas: Schema.SchemaTable, lake: DataLake)
    returns (outcome: Result<string, string>)
    modifies schemas, lake
    ensures outcome == Outcome(rec, env)
    ensures schemas.items == SchemasAfter(old(schemas.items), Event([rec]), env)
    ensures lake.objects == LakeAfter(old(lake.objects), Event([rec]), env)
  {
    ghost var event := Event([rec]);
    assert event.records[0] == rec;
    var cleaned := ReadAndTransform(env);
    if cleaned.Err? {
      return Err(cleaned.error);
    }
    outcome := RegisterAndSave(rec, cleaned.value, env, schemas, lake);
  }

  /** `lambda_handler(event, context)`. */
  method LambdaHandler(event: Event, env: Env, jobs: JobsTable, schemas: Schema.SchemaTable, lake: DataLake)
    modifies jobs, schemas, lake
    ensures jobs.items == AfterPuts(old(jobs.items), JobWrites(event, env))
    ensures schemas.items == SchemasAfter(old(schemas.items), event, env)
    ensures lake.objects == LakeAfter(old(lake.objects), event, env)
  {
    if |event.records| == 0 {
      return;
    }
    var rec := event.records[0];
    var userId := OwnerOf(rec.key);
    var jobId := env.jobId;
    UpdateJobStatus(jobs, jobId, userId, Processing, StartedMetadata(rec, env), env.processingStamp);
    var outcome := ProcessRecord(rec, env, schemas, lake);
    match outcome {
      case Ok(path) =>
        UpdateJobStatus(jobs, jobId, userId, Completed,
          CompletedMetadata(rec, path, env.endedAt), env.finalStamp);
      case Err(e) =>
        UpdateJobStatus(jobs, jobId, userId, Failed, map["error" := e], env.finalStamp);
    }
    AfterTwoPuts(old(jobs.items), StartedItem(rec, env), FinalItem(rec, env));
  }

  // ---------------------------------------------------------------------------
  // What a run promises

  /** A run writes nothing without a record; otherwise exactly two items for
      its own job and the key's owner: PROCESSING with the source and start
      time, then COMPLETED or FAILED. */
  lemma RunLifecycle(event: Event, env: Env)
    ensures JobWrites(event, env) == [] <==> event.records == []
    ensures event.records != [] ==>
      var w := JobWrites(event, env);
      var rec := event.records[0];
      && |w| == 2
      && w[0].jobId == env.jobId && w[1].jobId == env.jobId
      && w[0].userId == OwnerOf(rec.key) && w[1].userId == OwnerOf(rec.key)
      && w[0].status == Processing && w[0].body == Progress(env.processingStamp, StartedMetadata(rec, env))
      && (w[1].status == Completed || w[1].status == Failed)
  {
  }

  /** The job ends COMPLETED exactly when the object was read, the trim found
      no object column `.str` refuses, and the write succeeded; then its
      metadata holds the source and the output location. */
  lemma CompletedExactly(rec: S3Record, env: Env)
    ensures var read := ReadCsv(env.fetched, env.parse);
      FinalItem(rec, env).status == Completed <==>
        && read.Ok?
        && !Transform.TrimRaises(Transform.Kept(read.value, env.median, env.quantile), read.value.columns)
        && env.writeError.None?
    ensures FinalItem(rec, env).status == Completed ==>
      Prepared(env).Ok? &&
      FinalItem(rec, env).body.metadata == CompletedMetadata(rec,
        OutputLocation(OwnerOf(rec.key), RunSchemaId(Prepared(env).value, env), env.date, env.jobId), env.endedAt)
  {
    match Prepared(env)
    case Err(e) =>
      assert Outcome(rec, env) == Err(e);
    case Ok(t) =>
      assert Outcome(rec, env) == Saved(rec, t, env);
  }

  /** A job ends FAILED with only the error text as its metadata: the read
      error, which carries the prefix; the `.str` error of the trim; or the
      writer's error. */
  lemma FailedMetadata(rec: S3Record, env: Env)
    ensures ReadCsv(env.fetched, env.parse).Err? ==>
      && FinalItem(rec, env).status == Failed
      && FinalItem(rec, env).body.metadata == map["error" := ReadCsv(env.fetched, env.parse).error]
    ensures var read := ReadCsv(env.fetched, env.parse);
      read.Ok? && Transform.TrimRaises(Transform.Kept(read.value, env.median, env.quantile), read.value.columns) ==>
        && FinalItem(rec, env).status == Failed
        && FinalItem(rec, env).body.metadata == map["error" := Transform.StrAccessorMessage]
    ensures Prepared(env).Ok? && env.writeError.Some? ==>
      && FinalItem(rec, env).status == Failed
      && FinalItem(rec, env).body.metadata == map["error" := env.writeError.value]
    ensures env.fetched.Err? ==>
      FinalItem(rec, env).body.metadata == map["error" := ReadErrorPrefix + env.fetched.error]
  {
    match Prepared(env)
    case Err(e) =>
      assert Outcome(rec, env) == Err(e);
    case Ok(t) =>
      assert Outcome(rec, env) == Saved(rec, t, env);
  }

  /** A run changes only its own job's item; every other job keeps its item,
      and no other job appears. */
  lemma RunTouchesOnlyItsJob(items: map<string, JobItem>, event: Event, env: Env)
    ensures var after := AfterPuts(items, JobWrites(event, env));
      && (forall id :: id in after && id != env.jobId ==> id in items && after[id] == items[id])
      && (event.records != [] ==> env.jobId in after && after[env.jobId] == FinalItem(event.records[0], env))
  {
    AfterTwoPutsWhenRecord(items, event, env);
  }

  lemma AfterTwoPutsWhenRecord(items: map<string, JobItem>, event: Event, env: Env)
    ensures event.records != [] ==>
      AfterPuts(items, JobWrites(event, env))
        == items[env.jobId := StartedItem(event.records[0], env)][env.jobId := FinalItem(event.records[0], env)]
  {
    if event.records != [] {
      AfterTwoPuts(items, StartedItem(event.records[0], env), FinalItem(event.records[0], env));
    }
  }

  /** The run's cleaned frame and outcome do not depend on the schema
      table's behaviour. */
  lemma OutcomeIgnoresSchemaStore(rec: S3Record, env: Env, storeFails: bool)
    ensures Prepared(env.(schemaStoreFails := storeFails)) == Prepared(env)
    ensures Outcome(rec, env.(schemaStoreFails := storeFails)) == Outcome(rec, env)
  {
    var env' := env.(schemaStoreFails := storeFails);
    assert Prepared(env') == Prepared(env);
    match Prepared(env)
    case Err(e) =>
      assert Outcome(rec, env') == Err(e);
    case Ok(t) =>
      assert Outcome(rec, env') == Saved(rec, t, env');
  }

  /** A failing schema table does not change what the run records or writes:
      the error is swallowed and the identifier is returned anyway. */
  lemma SchemaFaultsInvisible(objects: map<string, Table>, event: Event, env: Env, storeFails: bool)
    ensures JobWrites(event, env.(schemaStoreFails := storeFails)) == JobWrites(event, env)
    ensures LakeAfter(objects, event, env.(schemaStoreFails := storeFails)) == LakeAfter(objects, event, env)
  {
    if event.records != [] {
      var rec := event.records[0];
      FinalItemIgnoresSchemaStore(rec, env, storeFails);
      LakeIgnoresSchemaStore(objects, event, env, storeFails);
    }
  }

  lemma FinalItemIgnoresSchemaStore(rec: S3Record, env: Env, storeFails: bool)
    ensures StartedItem(rec, env.(schemaStoreFails := storeFails)) == StartedItem(rec, env)
    ensures FinalItem(rec, env.(schemaStoreFails := storeFails)) == FinalItem(rec, env)
  {
    OutcomeIgnoresSchemaStore(rec, env, storeFails);
  }

  lemma LakeIgnoresSchemaStore(objects: map<string, Table>, event: Event, env: Env, storeFails: bool)
    requires event.records != []
    ensures LakeAfter(objects, event, env.(schemaStoreFails := storeFails)) == LakeAfter(objects, event, env)
  {
    var env' := env.(schemaStoreFails := storeFails);
    var rec := event.records[0];
    OutcomeIgnoresSchemaStore(rec, env, storeFails);
    match Prepared(env)
    case Err(_) =>
    case Ok(t) =>
      assert LakeAfter(objects, event, env) == StoredAfter(objects, rec, t, env);
      assert LakeAfter(objects, event, env') == StoredAfter(objects, rec, t, env');
  }

  /** A completed run stored the cleaned frame under the owner's partition
      and recorded the location of exactly that object. */
  lemma CompletedOutputStored(objects: map<string, Table>, event: Event, env: Env)
    requires event.records != [] && FinalItem(event.records[0], env).status == Completed
    ensures Prepared(env).Ok?
    ensures var rec := event.records[0];
      var t := Prepared(env).value;
      var key := OutputKey(OwnerOf(rec.key), RunSchemaId(t, env), env.date, env.jobId);
      && FinalItem(rec, env).body.metadata["output_path"] == "s3://" + DatalakeBucket + "/" + key
      && key in LakeAfter(objects, event, env)
      && LakeAfter(objects, event, env)[key] == t
  {
    var rec := event.records[0];
    CompletedExactly(rec, env);
    var t := Prepared(env).value;
    assert LakeAfter(objects, event, env) == StoredAfter(objects, rec, t, env);
  }

  /** The registered schema and the stored frame both carry the provenance
      columns, so their names count towards the schema identifier. */
  lemma SchemaCoversProvenance(env: Env)
    requires Prepared(env).Ok?
    ensures Transform.ProcessedAtColumn in Names(Prepared(env).value.columns)
    ensures Transform.SourceFileColumn in Names(Prepared(env).value.columns)
  {
    var df := ReadCsv(env.fetched, env.parse).value;
    Transform.TransformedShape(df, env.processedAt, env.median, env.quantile);
  }
}
