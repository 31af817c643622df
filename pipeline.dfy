/** The API and the processing function together: the key an upload is stored
    under, the job items both write to the shared table, and the download of
    a finished job's output. */
module Pipeline {
  import opened Wrappers
  import opened Jobs
  import Tables
  import Schema
  import Handler
  import Api
  import Text

  /** The processing function reads the uploader back out of the upload key,
      as long as the uploader's id holds no `/`. */
  lemma UploadOwnerIsUploader(userId: string, jobId: string, filename: string)
    requires '/' !in userId
    ensures Handler.OwnerOf(Api.UploadKey(userId, jobId, filename)) == userId
  {
    assert Api.UploadKey(userId, jobId, filename) == "uploads" + "/" + userId + "/" + (jobId + "_" + filename);
    Handler.OwnerOfKey("uploads", userId, jobId + "_" + filename);
  }

  /** The processing function draws its own job id, so the QUEUED item the
      API created for the upload is never updated by the run: the upload
      ends with two items, one QUEUED for ever. */
  lemma RunLeavesQueuedJob(items: map<string, JobItem>, event: Handler.Event, env: Handler.Env, queued: string)
    requires queued in items && queued != env.jobId
    ensures var after := AfterPuts(items, Handler.JobWrites(event, env));
      queued in after && after[queued] == items[queued]
  {
    Handler.RunTouchesOnlyItsJob(items, event, env);
  }

  /** A location built from `:`-free parts holds no `:`. */
  lemma NoColonInKey(userId: string, schemaId: string, date: string, jobId: string)
    requires ':' !in userId && ':' !in schemaId && ':' !in date && ':' !in jobId
    ensures ':' !in Handler.OutputKey(userId, schemaId, date, jobId)
  {
  }

  /** The `bucket/key` part of an output location built from `:`-free parts
      holds no `s3://`, and its bucket no `/`. */
  lemma NoSchemeInLocation(userId: string, schemaId: string, date: string, jobId: string)
    requires ':' !in userId && ':' !in schemaId && ':' !in date && ':' !in jobId
    ensures '/' !in Handler.DatalakeBucket
    ensures Text.Absent(Api.SchemePrefix, Handler.DatalakeBucket + "/" + Handler.OutputKey(userId, schemaId, date, jobId))
  {
    NoColonInKey(userId, schemaId, date, jobId);
    Handler.DatalakeBucketPlain();
    var rest := Handler.DatalakeBucket + "/" + Handler.OutputKey(userId, schemaId, date, jobId);
    assert ':' !in rest;
    assert Api.SchemePrefix[2] == ':';
    Text.AbsentWithout(Api.SchemePrefix, rest, ':');
  }

  /** A schema identifier holds no `:` when the digest never produces one. */
  lemma NoColonInSchemaId(names: seq<string>, digest: string -> string)
    requires forall x :: ':' !in digest(x)
    ensures ':' !in Schema.SchemaIdOf(names, digest)
  {
    var d := digest(Schema.FingerprintText(names));
    assert forall k :: 0 <= k < |Schema.SchemaPrefix| ==> Schema.SchemaPrefix[k] != ':';
    assert Schema.SchemaIdOf(names, digest) == Schema.SchemaPrefix + d;
    assert ':' !in d;
  }

  /** End to end: after a run over an upload by `userId` that completes, the
      uploader's download request for the run's job names the data lake bucket
      and the very key under which the cleaned frame was stored. The digest,
      the date and the job id are assumed free of `:` (a hex digest, an ISO
      date and a UUID are), so the key holds no second `s3://`. The
      notification key is taken as already decoded: S3 delivers it
      URL-encoded, and a file name with a space or `+` would arrive changed. */
  lemma CompletedRunDownloadable(items: map<string, JobItem>, objects: map<string, Tables.Table>,
                                 userId: string, uploadJob: string, filename: string,
                                 bucket: string, env: Handler.Env)
    requires '/' !in userId && ':' !in userId
    requires forall x :: ':' !in env.digest(x)
    requires ':' !in env.date && ':' !in env.jobId
    requires Handler.Prepared(env).Ok? && env.writeError.None?
    ensures var event := Handler.Event([Handler.S3Record(bucket, Api.UploadKey(userId, uploadJob, filename))]);
      var t := Handler.Prepared(env).value;
      var key := Handler.OutputKey(userId, Handler.RunSchemaId(t, env), env.date, env.jobId);
      var after := AfterPuts(items, Handler.JobWrites(event, env));
      && Api.DownloadParquet(after, env.jobId, Some(userId)) == Ok(Api.DownloadTarget(Handler.DatalakeBucket, key))
      && key in Handler.LakeAfter(objects, event, env)
      && Handler.LakeAfter(objects, event, env)[key] == t
  {
    var rec := Handler.S3Record(bucket, Api.UploadKey(userId, uploadJob, filename));
    var event := Handler.Event([rec]);
    var t := Handler.Prepared(env).value;
    var schemaId := Handler.RunSchemaId(t, env);
    var key := Handler.OutputKey(userId, schemaId, env.date, env.jobId);
    var after := AfterPuts(items, Handler.JobWrites(event, env));
    UploadOwnerIsUploader(userId, uploadJob, filename);
    Handler.CompletedExactly(rec, env);
    Handler.CompletedOutputStored(objects, event, env);
    Handler.RunTouchesOnlyItsJob(items, event, env);
    CompletedItemRecordsKey(rec, env, userId, t, key);
    NoColonInSchemaId(Tables.Names(t.columns), env.digest);
    NoSchemeInLocation(userId, schemaId, env.date, env.jobId);
    Api.DownloadRecordedOutput(after, env.jobId, userId, Handler.DatalakeBucket, key);
  }

  /** The final item of a completed run names its owner and output location. */
  lemma CompletedItemRecordsKey(rec: Handler.S3Record, env: Handler.Env, userId: string, t: Tables.Table, key: string)
    requires Handler.Prepared(env) == Ok(t) && env.writeError.None?
    requires Handler.OwnerOf(rec.key) == userId
    requires key == Handler.OutputKey(userId, Handler.RunSchemaId(t, env), env.date, env.jobId)
    ensures var final := Handler.FinalItem(rec, env);
      && final.userId == userId && final.body.Progress?
      && "output_path" in final.body.metadata
      && final.body.metadata["output_path"] == Api.SchemePrefix + Handler.DatalakeBucket + "/" + key
  {
    assert Handler.Outcome(rec, env) == Handler.Saved(rec, t, env);
  }
}
