/** The jobs table (`JobsTable`) that the upload API and the processing function
    share: items keyed by `jobId`, each `put_item` replacing the whole item. */
module Jobs {
  import opened Wrappers

  /** The owner recorded when the uploader is not known. */
  const Anonymous: string := "anonymous"

  datatype Status = Queued | Processing | Completed | Failed {
    /** The string stored in the `status` attribute. */
    function Name(): string {
      match this
      case Queued => "QUEUED"
      case Processing => "PROCESSING"
      case Completed => "COMPLETED"
      case Failed => "FAILED"
    }
  }

  /** The attributes beyond id, owner and status: the API writes the upload's
      filename, object key and creation time; the processing function writes a
      Unix timestamp and a metadata dictionary. */
  datatype JobBody =
    | Upload(filename: string, s3Key: string, createdAt: string)
    | Progress(timestamp: int, metadata: map<string, string>)

  datatype JobItem = JobItem(jobId: string, userId: string, status: Status, body: JobBody)

  /** Every item is stored under its own `jobId`. */
  predicate KeyedById(items: map<string, JobItem>) {
    forall id :: id in items ==> items[id].jobId == id
  }

  /** `get_item(Key={'jobId': id})`: the item, or nothing. */
  function GetJob(items: map<string, JobItem>, id: string): (r: Option<JobItem>)
    ensures r.Some? <==> id in items
    ensures r.Some? ==> r.value == items[id]
  {
    if id in items then Some(items[id]) else None
  }

  /** `job.get('metadata', {})`: an upload item and a missing job have none. */
  function MetadataOf(job: Option<JobItem>): (m: map<string, string>)
    ensures job.Some? && job.value.body.Progress? ==> m == job.value.body.metadata
    ensures job.None? || job.value.body.Upload? ==> m == map[]
  {
    if job.Some? && job.value.body.Progress? then job.value.body.metadata else map[]
  }

  /** `get_jobs_by_user(user_id)`: the scan that keeps the items whose `userId`
      equals the given value; a missing value matches no item. */
  function JobsByUser(items: map<string, JobItem>, userId: Option<string>): (r: set<JobItem>)
    ensures forall j :: j in r <==> j in items.Values && userId == Some(j.userId)
  {
    set j | j in items.Values && userId == Some(j.userId)
  }

  /** The job ids a sequence of writes touches. */
  function WrittenIds(writes: seq<JobItem>): set<string> {
    set w | w in writes :: w.jobId
  }

  /** The table after a sequence of `put_item` calls, in order: every written
      id holds its last write, every other item is kept. */
  function AfterPuts(items: map<string, JobItem>, writes: seq<JobItem>): (r: map<string, JobItem>)
    ensures r.Keys == items.Keys + WrittenIds(writes)
    ensures forall id :: id in items && id !in WrittenIds(writes) ==> r[id] == items[id]
    ensures writes != [] ==> r[writes[|writes| - 1].jobId] == writes[|writes| - 1]
    ensures KeyedById(items) ==> KeyedById(r)
  {
    if writes == [] then items
    else
      var init := writes[..|writes| - 1];
      var last := writes[|writes| - 1];
      assert writes == init + [last];
      assert WrittenIds(writes) == WrittenIds(init) + {last.jobId};
      AfterPuts(items, init)[last.jobId := last]
  }

  /** Two puts in a row, as a map update. */
  lemma AfterTwoPuts(items: map<string, JobItem>, a: JobItem, b: JobItem)
    ensures AfterPuts(items, [a, b]) == items[a.jobId := a][b.jobId := b]
  {
    assert [a, b][..1] == [a];
    assert [a][..0] == [];
  }

  class JobsTable {
    var items: map<string, JobItem>

    constructor()
      ensures items == map[]
    {
      items := map[];
    }

    /** `put_item(Item=item)`: creates the item or replaces it whole. */
    method PutItem(item: JobItem)
      modifies this
      ensures items == old(items)[item.jobId := item]
    {
      items := items[item.jobId := item];
    }
  }
}
