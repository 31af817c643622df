/** The upload and job API: an upload stores the CSV under the caller's prefix
    and records a QUEUED job; the read endpoints serve the caller's own jobs
    and the location of a finished job's Parquet output.

    The caller is the `sub` claim of the bearer token, which is decoded
    without checking its signature; here it is simply an optional string. */
module Api {
  import opened Wrappers
  import opened Jobs
  import Text

  const UploadBucket: string := "source-bucket-oabga"
  const CsvSuffix: string := ".csv"
  const OnlyCsvMessage: string := "Only CSV allowed"
  const NoParquetMessage: string := "No Parquet"
  const SchemePrefix: string := "s3://"

  /** How a request fails: an `HTTPException` with its status code and detail,
      or an exception the framework turns into a 500 response. */
  datatype ApiError =
    | Http(code: int, detail: Option<string>)
    | Internal(message: string)

  /** The body of a successful upload. */
  datatype UploadReply = UploadReply(jobId: string, status: string)

  /** The object a presigned download link points at. */
  datatype DownloadTarget = DownloadTarget(bucket: string, key: string)

  /** `user.get('sub', 'anonymous')`: the owner an upload is recorded under. */
  function CallerId(sub: Option<string>): (userId: string)
    ensures sub.Some? ==> userId == sub.value
    ensures sub.None? ==> userId == Anonymous
  {
    sub.GetOr(Anonymous)
  }

  /** The object key of an upload: under the caller's prefix, the job id and
      the original file name joined by `_`. */
  function UploadKey(userId: string, jobId: string, filename: string): (key: string)
    ensures '/' !in userId && '/' !in jobId && '/' !in filename ==>
      Text.Split(key, '/') == ["uploads", userId, jobId + "_" + filename]
  {
    var rest := jobId + "_" + filename;
    KeySegments(userId, rest);
    "uploads/" + userId + "/" + rest
  }

  /** The three `/`-separated segments of an upload key. */
  lemma KeySegments(userId: string, rest: string)
    ensures '/' !in userId && '/' !in rest ==>
      Text.Split("uploads/" + userId + "/" + rest, '/') == ["uploads", userId, rest]
  {
    if '/' !in userId && '/' !in rest {
      assert "uploads/" + userId + "/" + rest == "uploads" + ['/'] + (userId + ['/'] + rest);
      Text.SplitAfterHead("uploads", '/', userId + ['/'] + rest);
      Text.SplitAfterHead(userId, '/', rest);
    }
  }

  /** The item `create_job` puts. */
  function QueuedItem(jobId: string, userId: string, filename: string, key: string, createdAt: string)
    : (item: JobItem)
    ensures item.jobId == jobId && item.userId == userId && item.status == Queued
    ensures MetadataOf(Some(item)) == map[] && OutputPathOf(Some(item)).None?
  {
    JobItem(jobId, userId, Queued, Upload(filename, key, createdAt))
  }

  /** The upload bucket: object key to the uploaded bytes. */
  class UploadStore {
    var objects: map<string, seq<bv8>>

    constructor()
      ensures objects == map[]
    {
      objects := map[];
    }
  }

  /** `create_job`: one `put_item` of a QUEUED item. */
  method CreateJob(jobs: JobsTable, jobId: string, userId: string, filename: string, key: string, createdAt: string)
    modifies jobs
    ensures jobs.items == old(jobs.items)[jobId := QueuedItem(jobId, userId, filename, key, createdAt)]
  {
    jobs.PutItem(QueuedItem(jobId, userId, filename, key, createdAt));
  }

  /** `POST /api/upload`: a file name not ending in ".csv" is refused with 400
      before anything is stored; a failing object write ends the request with
      nothing recorded; otherwise the object is stored, the job is created and
      its id is returned with the status QUEUED. The new job id and the clock
      come in as parameters. */
  method UploadCsv(jobs: JobsTable, uploads: UploadStore, sub: Option<string>, filename: string,
                   content: seq<bv8>, jobId: string, createdAt: string, putError: Option<string>)
    returns (r: Result<UploadReply, ApiError>)
    modifies jobs, uploads
    ensures !Text.EndsWith(filename, CsvSuffix) ==>
      && r == Err(Http(400, Some(OnlyCsvMessage)))
      && jobs.items == old(jobs.items) && uploads.objects == old(uploads.objects)
    ensures Text.EndsWith(filename, CsvSuffix) && putError.Some? ==>
      && r == Err(Internal(putError.value))
      && jobs.items == old(jobs.items) && uploads.objects == old(uploads.objects)
    ensures Text.EndsWith(filename, CsvSuffix) && putError.None? ==>
      var key := UploadKey(CallerId(sub), jobId, filename);
      && r == Ok(UploadReply(jobId, Queued.Name()))
      && uploads.objects == old(uploads.objects)[key := content]
      && jobs.items == old(jobs.items)[jobId := QueuedItem(jobId, CallerId(sub), filename, key, createdAt)]
  {
    var userId := CallerId(sub);
    if !Text.EndsWith(filename, CsvSuffix) {
      return Err(Http(400, Some(OnlyCsvMessage)));
    }
    var key := UploadKey(userId, jobId, filename);
    if putError.Some? {
      return Err(Internal(putError.value));
    }
    uploads.objects := uploads.objects[key := content];
    CreateJob(jobs, jobId, userId, filename, key, createdAt);
    r := Ok(UploadReply(jobId, Queued.Name()));
  }

  /** `GET /api/jobs`: the scan for the caller's `sub`; a caller without one
      sees no job. */
  function ListJobs(items: map<string, JobItem>, sub: Option<string>): (r: set<JobItem>)
    ensures forall j :: j in r <==> j in items.Values && sub == Some(j.userId)
    ensures sub.None? ==> r == {}
  {
    JobsByUser(items, sub)
  }

  /** `job.get('userId')`: a missing job has no owner. */
  function OwnerField(job: Option<JobItem>): (owner: Option<string>)
    ensures owner.Some? <==> job.Some?
    ensures job.Some? ==> owner.value == job.value.userId
  {
    if job.Some? then Some(job.value.userId) else None
  }

  /** The ownership test both read endpoints apply: the job's owner must equal
      the caller's `sub`, where a missing owner and a missing `sub` are equal. */
  predicate MayRead(job: Option<JobItem>, sub: Option<string>) {
    OwnerField(job) == sub
  }

  /** `GET /api/jobs/{job_id}`: the job, or 403 when the caller does not own
      it. A caller without `sub` asking for a missing job gets the empty item,
      here `None`. */
  function GetJobDetail(items: map<string, JobItem>, jobId: string, sub: Option<string>)
    : (r: Result<Option<JobItem>, ApiError>)
    ensures r.Err? <==> OwnerField(GetJob(items, jobId)) != sub
    ensures r.Err? ==> r.error == Http(403, None)
    ensures r.Ok? ==> r.value == GetJob(items, jobId)
  {
    var job := GetJob(items, jobId);
    if !MayRead(job, sub) then Err(Http(403, None)) else Ok(job)
  }

  /** `metadata.get('output_path')`, with Python's falsiness: a missing and an
      empty path are both "no path". */
  function OutputPathOf(job: Option<JobItem>): (path: Option<string>)
    ensures path.Some? ==>
      (path.value != [] && "output_path" in MetadataOf(job) && path.value == MetadataOf(job)["output_path"])
    ensures path.None? ==> "output_path" !in MetadataOf(job) || MetadataOf(job)["output_path"] == []
  {
    var metadata := MetadataOf(job);
    if "output_path" in metadata && metadata["output_path"] != [] then Some(metadata["output_path"]) else None
  }

  /** The bucket and key of an `s3://bucket/key` location: the scheme is
      removed wherever it occurs and the rest is cut at its first `/`; without
      a `/` the second piece is missing and the request fails. */
  function ParseLocation(path: string): (r: Result<DownloadTarget, ApiError>)
    ensures var rest := Text.ReplaceAll(path, SchemePrefix, "");
      && (r.Ok? <==> '/' in rest)
      && (r.Ok? ==> rest == r.value.bucket + "/" + r.value.key && '/' !in r.value.bucket)
  {
    var parts := Text.SplitOnce(Text.ReplaceAll(path, SchemePrefix, ""), '/');
    if |parts| < 2 then Err(Internal("list index out of range"))
    else Ok(DownloadTarget(parts[0], parts[1]))
  }

  /** `GET /api/jobs/{job_id}/download`: 403 unless the caller owns the job,
      404 without an output path, otherwise the object the link is signed for. */
  function DownloadParquet(items: map<string, JobItem>, jobId: string, sub: Option<string>)
    : (r: Result<DownloadTarget, ApiError>)
    ensures OwnerField(GetJob(items, jobId)) != sub ==> r == Err(Http(403, None))
    ensures OwnerField(GetJob(items, jobId)) == sub && OutputPathOf(GetJob(items, jobId)).None? ==>
      r == Err(Http(404, Some(NoParquetMessage)))
    ensures OwnerField(GetJob(items, jobId)) == sub && OutputPathOf(GetJob(items, jobId)).Some? ==>
      r == ParseLocation(OutputPathOf(GetJob(items, jobId)).value)
    ensures r.Ok? ==> OutputPathOf(GetJob(items, jobId)).Some?
  {
    var job := GetJob(items, jobId);
    if !MayRead(job, sub) then Err(Http(403, None))
    else
      match OutputPathOf(job)
      case None => Err(Http(404, Some(NoParquetMessage)))
      case Some(path) => ParseLocation(path)
  }

  // ---------------------------------------------------------------------------
  // What the endpoints promise together

  /** After an upload by a caller with a `sub`, the new job is in that caller's
      list and readable by them; by anyone else it is refused. */
  lemma UploadVisibleToUploader(items: map<string, JobItem>, user: string, other: Option<string>,
                                jobId: string, filename: string, createdAt: string)
    requires other != Some(user)
    ensures var key := UploadKey(user, jobId, filename);
      var item := QueuedItem(jobId, user, filename, key, createdAt);
      var after := items[jobId := item];
      && item in ListJobs(after, Some(user))
      && item !in ListJobs(after, other)
      && GetJobDetail(after, jobId, Some(user)) == Ok(Some(item))
      && GetJobDetail(after, jobId, other) == Err(Http(403, None))
  {
    var key := UploadKey(user, jobId, filename);
    var item := QueuedItem(jobId, user, filename, key, createdAt);
    var after := items[jobId := item];
    assert after[jobId] == item;
    assert item in after.Values;
  }

  /** A caller without `sub` has uploads recorded under "anonymous", yet every
      existing job, their own included, is refused to them, and their list
      is empty. */
  lemma SublessCallerLockedOut(items: map<string, JobItem>, jobId: string)
    requires jobId in items
    ensures GetJobDetail(items, jobId, None) == Err(Http(403, None))
    ensures DownloadParquet(items, jobId, None) == Err(Http(403, None))
    ensures ListJobs(items, None) == {}
  {
  }

  /** A QUEUED job from the upload has no output, so its owner's download
      request is answered 404. */
  lemma QueuedJobHasNoDownload(items: map<string, JobItem>, user: string, jobId: string,
                               filename: string, createdAt: string)
    ensures var item := QueuedItem(jobId, user, filename, UploadKey(user, jobId, filename), createdAt);
      DownloadParquet(items[jobId := item], jobId, Some(user)) == Err(Http(404, Some(NoParquetMessage)))
  {
  }

  /** The owner of a job whose recorded output is `s3://bucket/key` is sent to
      that bucket and key. */
  lemma DownloadRecordedOutput(items: map<string, JobItem>, jobId: string, user: string, bucket: string, key: string)
    requires jobId in items && items[jobId].userId == user && items[jobId].body.Progress?
    requires '/' !in bucket && Text.Absent(SchemePrefix, bucket + "/" + key)
    requires "output_path" in items[jobId].body.metadata
    requires items[jobId].body.metadata["output_path"] == SchemePrefix + bucket + "/" + key
    ensures DownloadParquet(items, jobId, Some(user)) == Ok(DownloadTarget(bucket, key))
  {
    ParseLocationRoundTrip(bucket, key);
    assert OutputPathOf(GetJob(items, jobId)) == Some(SchemePrefix + bucket + "/" + key);
  }

  /** An `s3://bucket/key` location whose bucket holds no `/` and whose
      `bucket/key` part holds no further `s3://` parses back to that bucket
      and key. */
  lemma ParseLocationRoundTrip(bucket: string, key: string)
    requires '/' !in bucket && Text.Absent(SchemePrefix, bucket + "/" + key)
    ensures ParseLocation(SchemePrefix + bucket + "/" + key) == Ok(DownloadTarget(bucket, key))
  {
    var rest := bucket + ['/'] + key;
    assert rest == bucket + "/" + key;
    calc {
      Text.ReplaceAll(SchemePrefix + bucket + "/" + key, SchemePrefix, "");
      == { assert SchemePrefix + bucket + "/" + key == SchemePrefix + rest; }
      Text.ReplaceAll(SchemePrefix + rest, SchemePrefix, "");
      == { Text.ReplaceAllLeading(SchemePrefix, rest, ""); }
      "" + Text.ReplaceAll(rest, SchemePrefix, "");
      == { Text.ReplaceAllAbsent(rest, SchemePrefix, ""); }
      rest;
    }
    Text.SplitOnceAfterHead(bucket, '/', key);
  }
}
