/** The open-jobs list component: it always lists open jobs, refetches the
    current page after a delete or a status change, and pages with
    Previous / Next. */
module JobList {
  import opened Wrappers
  import opened Types
  import opened JobApi

  /** The request `fetchJobs(page)` sends: the page, the current limit, and
      always `status: 'open'`. */
  function OpenJobsQuery(page: int, limit: int): (q: JobQuery)
    ensures q.status == Some(Open) && q.search == None
    ensures q.page == page && q.limit == limit
  {
    JobQuery(page, limit, Some(Open), None)
  }

  /** The status button of a job card: its label and the status it requests. */
  datatype StatusButton = StatusButton(caption: string, target: JobStatus)

  /** An open job offers 'Close' and requests 'closed'; any other offers
      'Reopen' and requests 'open'. */
  function StatusButtonFor(status: JobStatus): (b: StatusButton)
    ensures b.target == ToggledStatus(status)
    ensures b.caption == "Close" <==> status == Open
    ensures b.caption == "Close" || b.caption == "Reopen"
  {
    if status == Open then StatusButton("Close", Closed) else StatusButton("Reopen", Open)
  }

  /** The pagination bar exists only when the list itself is rendered (not
      loading, at least one job) and there is more than one page. */
  predicate PaginationShown(loading: bool, jobs: seq<Job>, p: Pagination) {
    !loading && |jobs| > 0 && p.pages > 1
  }

  class Controller {
    var jobs: seq<Job>
    var loading: bool
    var pagination: Pagination

    /** The state cells as the component first renders them. */
    constructor ()
      ensures jobs == [] && loading && pagination == InitialPagination
    {
      jobs := [];
      loading := true;
      pagination := InitialPagination;
    }

    /** `fetchJobs(page)` up to its await; an omitted page means page 1. */
    method BeginFetch(page: Option<int>) returns (params: JobQuery)
      modifies this`loading
      ensures loading
      ensures params == OpenJobsQuery(if page.Some? then page.value else 1, pagination.limit)
    {
      loading := true;
      params := OpenJobsQuery(if page.Some? then page.value else 1, pagination.limit);
    }

    /** `fetchJobs` after its await: a response replaces the list and the
        pagination, an error keeps both; loading ends false either way. */
    method CompleteFetch(response: ApiResult<JobsListResponse>) returns (notice: Notice)
      modifies this`jobs, this`pagination, this`loading
      ensures !loading
      ensures response.Success? ==> jobs == response.value.jobs && pagination == PaginationOf(response.value)
      ensures response.Success? ==> notice == Silent
      ensures response.Failure? ==> jobs == old(jobs) && pagination == old(pagination)
      ensures response.Failure? ==> notice == Error("Error", ErrorText(response.message, "Failed to load jobs"))
    {
      match response {
        case Success(r) =>
          jobs := r.jobs;
          pagination := PaginationOf(r);
          notice := Silent;
        case Failure(m) =>
          notice := Error("Error", ErrorText(m, "Failed to load jobs"));
      }
      loading := false;
    }

    /** `handleDelete(id)`: a declined confirmation returns before any request;
        otherwise `deleteJob(id)` is called, and only after it succeeds is the
        current page fetched again. The list itself is left to that refetch. */
    method HandleDelete(id: string, confirmed: bool, deleted: ApiResult<()>)
      returns (requested: bool, refetch: Option<JobQuery>, notice: Notice)
      modifies this`loading
      ensures requested == confirmed
      ensures refetch.Some? <==> confirmed && deleted.Success?
      ensures refetch.Some? ==> refetch.value == OpenJobsQuery(pagination.page, pagination.limit) && loading
      ensures refetch.Some? ==> notice == Ok("Success", "Job deleted successfully")
      ensures refetch.None? ==> loading == old(loading)
      ensures !confirmed ==> notice == Silent
      ensures confirmed && deleted.Failure? ==>
        notice == Error("Error", ErrorText(deleted.message, "Failed to delete job"))
    {
      refetch := None;
      if !confirmed {
        return false, None, Silent;
      }
      requested := true;
      match deleted {
        case Success(_) =>
          notice := Ok("Success", "Job deleted successfully");
          var params := BeginFetch(Some(pagination.page));
          refetch := Some(params);
        case Failure(m) =>
          notice := Error("Error", ErrorText(m, "Failed to delete job"));
      }
    }

    /** `handleStatusChange(id, status)`: `updateJob(id, {status})`, then on
        success a refetch of the current page; on an error no refetch. */
    method HandleStatusChange(id: string, newStatus: JobStatus, updated: ApiResult<Job>)
      returns (refetch: Option<JobQuery>, notice: Notice)
      modifies this`loading
      ensures refetch.Some? <==> updated.Success?
      ensures refetch.Some? ==> refetch.value == OpenJobsQuery(pagination.page, pagination.limit) && loading
      ensures refetch.Some? ==> notice == Ok("Success", "Job status changed to " + JobStatusName(newStatus))
      ensures refetch.None? ==> loading == old(loading)
      ensures updated.Failure? ==>
        notice == Error("Error", ErrorText(updated.message, "Failed to update job status"))
    {
      match updated {
        case Success(_) =>
          notice := Ok("Success", "Job status changed to " + JobStatusName(newStatus));
          var params := BeginFetch(Some(pagination.page));
          refetch := Some(params);
        case Failure(m) =>
          notice := Error("Error", ErrorText(m, "Failed to update job status"));
          refetch := None;
      }
    }

    /** The status button of a card: it changes the job to the button's target. */
    method ClickStatusButton(job: Job, updated: ApiResult<Job>)
      returns (requested: JobStatus, refetch: Option<JobQuery>, notice: Notice)
      modifies this`loading
      ensures requested == ToggledStatus(job.status)
      ensures refetch.Some? <==> updated.Success?
      ensures refetch.Some? ==> refetch.value == OpenJobsQuery(pagination.page, pagination.limit) && loading
      ensures refetch.Some? ==> notice == Ok("Success", "Job status changed to " + JobStatusName(requested))
      ensures refetch.None? ==> loading == old(loading)
      ensures updated.Failure? ==>
        notice == Error("Error", ErrorText(updated.message, "Failed to update job status"))
    {
      requested := StatusButtonFor(job.status).target;
      refetch, notice := HandleStatusChange(job.id, requested, updated);
    }

    /** Previous, when shown and not on page 1: fetch the page before. */
    method PreviousPage() returns (params: Option<JobQuery>)
      modifies this`loading
      ensures params.Some? <==> PaginationShown(old(loading), jobs, pagination) && pagination.page != 1
      ensures params.Some? ==> params.value == OpenJobsQuery(pagination.page - 1, pagination.limit) && loading
      ensures params.None? ==> loading == old(loading)
    {
      if PaginationShown(loading, jobs, pagination) && pagination.page != 1 {
        var p := BeginFetch(Some(pagination.page - 1));
        params := Some(p);
      } else {
        params := None;
      }
    }

    /** Next, when shown and not on the last page: fetch the page after. */
    method NextPage() returns (params: Option<JobQuery>)
      modifies this`loading
      ensures params.Some? <==> PaginationShown(old(loading), jobs, pagination) && pagination.page != pagination.pages
      ensures params.Some? ==> params.value == OpenJobsQuery(pagination.page + 1, pagination.limit) && loading
      ensures params.None? ==> loading == old(loading)
    {
      if PaginationShown(loading, jobs, pagination) && pagination.page != pagination.pages {
        var p := BeginFetch(Some(pagination.page + 1));
        params := Some(p);
      } else {
        params := None;
      }
    }
  }
}
