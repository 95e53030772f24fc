/** The request and response shapes of the jobs HTTP client, and the list
    edits both job screens make with the values it returns. The HTTP calls
    themselves are not modelled: each screen receives their settled results. */
module JobApi {
  import opened Wrappers
  import opened Types
  import Lists

  /** Query parameters of `GET /jobs`; a `None` field is left out of the request. */
  datatype JobQuery = JobQuery(page: int, limit: int, status: Option<JobStatus>, search: Option<string>)

  /** Body of a successful `GET /jobs`. */
  datatype JobsListResponse = JobsListResponse(jobs: seq<Job>, total: int, page: int, limit: int, pages: int)

  /** The pagination cell both job screens keep. */
  datatype Pagination = Pagination(page: int, limit: int, total: int, pages: int)

  /** The pagination cell both screens start with: page 1 of 10 items, nothing loaded. */
  const InitialPagination := Pagination(1, 10, 0, 0)

  /** The pagination carried by a list response. */
  function PaginationOf(response: JobsListResponse): (p: Pagination)
    ensures p.page == response.page && p.limit == response.limit
    ensures p.total == response.total && p.pages == response.pages
  {
    Pagination(response.page, response.limit, response.total, response.pages)
  }

  /** The status a toggle requests: 'closed' for an open job, 'open' for any other. */
  function ToggledStatus(s: JobStatus): (t: JobStatus)
    ensures t == Closed <==> s == Open
    ensures t != Draft
  {
    if s == Open then Closed else Open
  }

  /** Toggling an open or closed job twice requests its original status again;
      a draft goes to open and then to closed. */
  lemma ToggleTwice(s: JobStatus)
    ensures s != Draft ==> ToggledStatus(ToggledStatus(s)) == s
    ensures ToggledStatus(ToggledStatus(Draft)) == Closed
  {
  }

  function JobKey(j: Job): string { j.id }

  /** `jobs.map(j => j._id === id ? updated : j)`. */
  function WithJobReplaced(jobs: seq<Job>, id: string, updated: Job): (r: seq<Job>)
    ensures |r| == |jobs|
    ensures forall i :: 0 <= i < |jobs| && jobs[i].id != id ==> r[i] == jobs[i]
    ensures forall i :: 0 <= i < |jobs| && jobs[i].id == id ==> r[i] == updated
  {
    Lists.UpdateKey(jobs, JobKey, id, _ => updated)
  }

  /** `jobs.filter(j => j._id !== id)`. */
  function WithoutJob(jobs: seq<Job>, id: string): (r: seq<Job>)
    ensures Lists.SubsequenceOf(r, jobs)
    ensures forall j :: j in r <==> j in jobs && j.id != id
    ensures |r| == |jobs| - Lists.CountKey(jobs, JobKey, id)
  {
    Lists.RemoveKey(jobs, JobKey, id)
  }

  /** Deleting a listed job from a list with distinct ids shrinks it by exactly one. */
  lemma WithoutListedJob(jobs: seq<Job>, job: Job)
    requires Lists.UniqueKeys(jobs, JobKey)
    requires job in jobs
    ensures |WithoutJob(jobs, job.id)| == |jobs| - 1
    ensures job !in WithoutJob(jobs, job.id)
  {
    Lists.RemoveUniqueKey(jobs, JobKey, job.id);
  }

  /** Replacing a job by one with the same id keeps the ids distinct. */
  lemma {:induction false} ReplaceKeepsUniqueIds(jobs: seq<Job>, id: string, updated: Job)
    requires Lists.UniqueKeys(jobs, JobKey)
    requires updated.id == id
    ensures Lists.UniqueKeys(WithJobReplaced(jobs, id, updated), JobKey)
  {
    var r := WithJobReplaced(jobs, id, updated);
    forall i, j | 0 <= i < j < |r| ensures JobKey(r[i]) != JobKey(r[j]) {
      assert JobKey(r[i]) == JobKey(jobs[i]) && JobKey(r[j]) == JobKey(jobs[j]);
    }
  }
}
