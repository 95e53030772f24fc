/** The job postings screen: a server-backed list with a status filter, a
    search box, pagination, and create / edit / delete / status-toggle actions
    that splice the server's answer into the list. */
module JobsPage {
  import opened Wrappers
  import opened Types
  import opened Text
  import opened JobApi
  import Lists

  /** The status select: 'all' or one job status. */
  datatype StatusFilter = All | Only(status: JobStatus)

  /** A pending debounce timer and what its callback closed over: the loading
      flag, pagination, filter and query of the render that scheduled it. */
  datatype SearchTimer = SearchTimer(loading: bool, pagination: Pagination, filter: StatusFilter, query: string)

  /** The parameters `fetchJobs` sends: page and limit always; `status` exactly
      when a status is selected; `search` exactly when the query has a character
      `trim` keeps, and then the query as typed, untrimmed. */
  function FetchParams(pagination: Pagination, filter: StatusFilter, query: string): (q: JobQuery)
    ensures q.page == pagination.page && q.limit == pagination.limit
    ensures q.status.Some? <==> filter.Only?
    ensures filter.Only? ==> q.status == Some(filter.status)
    ensures q.search.Some? <==> !AllTrimmable(query)
    ensures q.search.Some? ==> q.search.value == query
  {
    var base := JobQuery(pagination.page, pagination.limit, None, None);
    var withStatus := if filter.Only? then base.(status := Some(filter.status)) else base;
    if Trim(query) != [] then withStatus.(search := Some(query)) else withStatus
  }

  /** A job matches when its title, location, description or salary contains
      the query, ignoring case. */
  predicate JobMatches(job: Job, query: string) {
    ContainsIgnoringCase(job.title, query)
    || ContainsIgnoringCase(job.location, query)
    || ContainsIgnoringCase(job.description, query)
    || ContainsIgnoringCase(job.salary, query)
  }

  /** `filteredJobs`: all jobs for a blank query; otherwise the matching jobs in
      their original order (matched against the untrimmed query). */
  function FilteredJobs(jobs: seq<Job>, query: string): (r: seq<Job>)
    ensures AllTrimmable(query) ==> r == jobs
    ensures !AllTrimmable(query) ==> Lists.SubsequenceOf(r, jobs)
    ensures !AllTrimmable(query) ==> forall j :: j in r <==> j in jobs && JobMatches(j, query)
    ensures !AllTrimmable(query) ==>
      forall j :: multiset(r)[j] == if JobMatches(j, query) then multiset(jobs)[j] else 0
  {
    if Trim(query) == [] then jobs else Lists.Filter(jobs, j => JobMatches(j, query))
  }

  /** A job always matches a search for its own title. */
  lemma TitleSearchFindsJob(jobs: seq<Job>, job: Job)
    requires job in jobs
    ensures job in FilteredJobs(jobs, job.title)
  {
    ContainsIgnoringCaseBasics(job.title);
  }

  /** The pagination bar is rendered only after loading and with more than one page. */
  predicate PaginationShown(loading: bool, p: Pagination) {
    !loading && p.pages > 1
  }

  /** Previous is disabled on page 1, Next on the last page. */
  predicate PreviousEnabled(p: Pagination) { p.page != 1 }
  predicate NextEnabled(p: Pagination) { p.page != p.pages }

  /** On a page within bounds, an enabled Previous or Next button moves to a
      page that is still within bounds. */
  lemma EnabledButtonsStayInBounds(p: Pagination)
    requires 1 <= p.page <= p.pages
    ensures PreviousEnabled(p) ==> 1 <= p.page - 1 <= p.pages
    ensures NextEnabled(p) ==> 1 <= p.page + 1 <= p.pages
  {
  }

  class Controller {
    var jobs: seq<Job>
    var loading: bool
    var refreshing: bool
    var searchQuery: string
    var statusFilter: StatusFilter
    var isFormOpen: bool
    var editingJob: Option<Job>
    var deletingJob: Option<Job>
    var pagination: Pagination
    var pendingSearch: Option<SearchTimer>

    /** The state cells as the screen first renders them; the search effect has
        scheduled its first timer in that render, while loading. */
    constructor ()
      ensures jobs == [] && loading && !refreshing
      ensures searchQuery == [] && statusFilter == All
      ensures !isFormOpen && editingJob == None && deletingJob == None
      ensures pagination == InitialPagination
      ensures pendingSearch == Some(SearchTimer(true, InitialPagination, All, []))
    {
      jobs := [];
      loading := true;
      refreshing := false;
      searchQuery := [];
      statusFilter := All;
      isFormOpen := false;
      editingJob := None;
      deletingJob := None;
      pagination := InitialPagination;
      pendingSearch := Some(SearchTimer(true, InitialPagination, All, []));
    }

    /** `fetchJobs` up to its await: raise the loading flag and build the
        request from the current pagination, filter and query. The list stays
        as it is until the request settles. */
    method BeginFetch() returns (params: JobQuery)
      modifies this`loading
      ensures loading
      ensures params == FetchParams(pagination, statusFilter, searchQuery)
    {
      loading := true;
      params := FetchParams(pagination, statusFilter, searchQuery);
    }

    /** `fetchJobs` after its await: a response replaces the list and the
        pagination; an error keeps both and raises a toast. Either way the
        loading and refreshing flags end false. */
    method CompleteFetch(response: ApiResult<JobsListResponse>) returns (notice: Notice)
      modifies this`jobs, this`pagination, this`loading, this`refreshing
      ensures !loading && !refreshing
      ensures response.Success? ==> jobs == response.value.jobs && pagination == PaginationOf(response.value)
      ensures response.Success? ==> notice == Silent
      ensures response.Failure? ==> jobs == old(jobs) && pagination == old(pagination)
      ensures response.Failure? ==> notice == Error(ErrorText(response.message, "Failed to load jobs"), "")
    {
      match response {
        case Success(r) =>
          jobs := r.jobs;
          pagination := PaginationOf(r);
          notice := Silent;
        case Failure(m) =>
          notice := Error(ErrorText(m, "Failed to load jobs"), "");
      }
      loading := false;
      refreshing := false;
    }

    /** The refresh button: mark refreshing, then fetch. */
    method Refresh() returns (params: JobQuery)
      requires !refreshing  // the button is disabled while refreshing
      modifies this`refreshing, this`loading
      ensures refreshing && loading
      ensures params == FetchParams(pagination, statusFilter, searchQuery)
    {
      refreshing := true;
      params := BeginFetch();
    }

    /** The search box. A new value re-runs the search effect, which cancels
        the pending timer and schedules one over this render's state. */
    method SetSearchQuery(query: string)
      requires !loading  // the input is disabled while loading
      modifies this`searchQuery, this`pendingSearch
      ensures searchQuery == query
      ensures query != old(searchQuery) ==> pendingSearch == Some(SearchTimer(loading, pagination, statusFilter, query))
      ensures query == old(searchQuery) ==> pendingSearch == old(pendingSearch)
    {
      if query != searchQuery {
        searchQuery := query;
        pendingSearch := Some(SearchTimer(loading, pagination, statusFilter, query));
      }
    }

    /** The status select; a new value reschedules the search timer likewise. */
    method SetStatusFilter(filter: StatusFilter)
      requires !loading  // the select is disabled while loading
      modifies this`statusFilter, this`pendingSearch
      ensures statusFilter == filter
      ensures filter != old(statusFilter) ==> pendingSearch == Some(SearchTimer(loading, pagination, filter, searchQuery))
      ensures filter == old(statusFilter) ==> pendingSearch == old(pendingSearch)
    {
      if filter != statusFilter {
        statusFilter := filter;
        pendingSearch := Some(SearchTimer(loading, pagination, filter, searchQuery));
      }
    }

    /** The pending timer firing 500 ms after it was scheduled: its callback
        fetches only if the render that scheduled it was not loading, and then
        with that render's pagination, filter and query. */
    method SearchTimerFired() returns (params: Option<JobQuery>)
      modifies this`loading, this`pendingSearch
      ensures pendingSearch == None
      ensures params.Some? <==> old(pendingSearch).Some? && !old(pendingSearch).value.loading
      ensures params.Some? ==> loading
      ensures params.Some? ==>
        var t := old(pendingSearch).value;
        params.value == FetchParams(t.pagination, t.filter, t.query)
      ensures params.None? ==> loading == old(loading)
    {
      params := None;
      if pendingSearch.Some? {
        var t := pendingSearch.value;
        if !t.loading {
          loading := true;
          params := Some(FetchParams(t.pagination, t.filter, t.query));
        }
      }
      pendingSearch := None;
    }

    /** The Add Job button opens an empty form. */
    method OpenAddForm()
      requires !loading  // the button is disabled while loading
      modifies this`isFormOpen
      ensures isFormOpen
    {
      isFormOpen := true;
    }

    /** The pencil button opens the form on a job. */
    method StartEdit(job: Job)
      requires !loading  // the button is disabled while loading
      modifies this`editingJob
      ensures editingJob == Some(job)
    {
      editingJob := Some(job);
    }

    /** Cancelling or dismissing the form dialog. */
    method CloseForm()
      modifies this`isFormOpen, this`editingJob
      ensures !isFormOpen && editingJob == None
    {
      isFormOpen := false;
      editingJob := None;
    }

    /** The bin button asks for confirmation of a job's deletion. */
    method StartDelete(job: Job)
      requires !loading  // the button is disabled while loading
      modifies this`deletingJob
      ensures deletingJob == Some(job)
    {
      deletingJob := Some(job);
    }

    /** Dismissing the confirmation dialog. */
    method CancelDelete()
      modifies this`deletingJob
      ensures deletingJob == None
    {
      deletingJob := None;
    }

    /** `handleAddJob` once `createJob` settles: the created job is prepended
        and the form closes; on an error the list and the form stay. */
    method HandleAddJob(created: ApiResult<Job>) returns (notice: Notice)
      modifies this`jobs, this`isFormOpen
      ensures created.Success? ==> jobs == [created.value] + old(jobs) && !isFormOpen
      ensures created.Success? ==> notice == Ok("Job created successfully!", "")
      ensures created.Failure? ==> jobs == old(jobs) && isFormOpen == old(isFormOpen)
      ensures created.Failure? ==> notice == Error(ErrorText(created.message, "Failed to create job"), "")
    {
      match created
      case Success(job) =>
        jobs := [job] + jobs;
        isFormOpen := false;
        notice := Ok("Job created successfully!", "");
      case Failure(m) =>
        notice := Error(ErrorText(m, "Failed to create job"), "");
    }

    /** `handleEditJob`: without a job being edited nothing happens and no
        request is made; otherwise `updateJob` is called with its id, and once
        it succeeds every job with that id is replaced by the server's copy and
        the form closes; on an error nothing changes. */
    method HandleEditJob(updated: ApiResult<Job>) returns (requestedId: Option<string>, notice: Notice)
      modifies this`jobs, this`editingJob
      ensures requestedId == if old(editingJob).Some? then Some(old(editingJob).value.id) else None
      ensures requestedId.None? ==> jobs == old(jobs) && editingJob == old(editingJob) && notice == Silent
      ensures requestedId.Some? && updated.Success? ==>
        jobs == WithJobReplaced(old(jobs), requestedId.value, updated.value) && editingJob == None
        && notice == Ok("Job updated successfully!", "")
      ensures requestedId.Some? && updated.Failure? ==>
        jobs == old(jobs) && editingJob == old(editingJob)
        && notice == Error(ErrorText(updated.message, "Failed to update job"), "")
    {
      if editingJob.None? {
        return None, Silent;
      }
      var id := editingJob.value.id;
      requestedId := Some(id);
      match updated
      case Success(job) =>
        jobs := WithJobReplaced(jobs, id, job);
        editingJob := None;
        notice := Ok("Job updated successfully!", "");
      case Failure(m) =>
        notice := Error(ErrorText(m, "Failed to update job"), "");
    }

    /** The form's submit: it edits when a job is being edited and creates otherwise. */
    method SubmitJobForm(result: ApiResult<Job>) returns (notice: Notice)
      modifies this`jobs, this`isFormOpen, this`editingJob
      ensures old(editingJob).None? ==> editingJob == None
      ensures old(editingJob).None? && result.Success? ==>
        jobs == [result.value] + old(jobs) && !isFormOpen && notice == Ok("Job created successfully!", "")
      ensures old(editingJob).None? && result.Failure? ==>
        jobs == old(jobs) && isFormOpen == old(isFormOpen)
        && notice == Error(ErrorText(result.message, "Failed to create job"), "")
      ensures old(editingJob).Some? ==> isFormOpen == old(isFormOpen)
      ensures old(editingJob).Some? && result.Success? ==>
        jobs == WithJobReplaced(old(jobs), old(editingJob).value.id, result.value) && editingJob == None
        && notice == Ok("Job updated successfully!", "")
      ensures old(editingJob).Some? && result.Failure? ==>
        jobs == old(jobs) && editingJob == old(editingJob)
        && notice == Error(ErrorText(result.message, "Failed to update job"), "")
    {
      if editingJob.Some? {
        var _, n := HandleEditJob(result);
        notice := n;
      } else {
        notice := HandleAddJob(result);
      }
    }

    /** `handleDeleteJob`: without a selected job nothing happens and no request
        is made; otherwise `deleteJob` is called with its id, and once it
        succeeds every job with that id is removed (the rest keep their order)
        and the dialog closes; on an error nothing changes. */
    method HandleDeleteJob(deleted: ApiResult<()>) returns (requestedId: Option<string>, notice: Notice)
      modifies this`jobs, this`deletingJob
      ensures requestedId == if old(deletingJob).Some? then Some(old(deletingJob).value.id) else None
      ensures requestedId.None? ==> jobs == old(jobs) && deletingJob == old(deletingJob) && notice == Silent
      ensures requestedId.Some? && deleted.Success? ==>
        jobs == WithoutJob(old(jobs), requestedId.value) && deletingJob == None
        && notice == Ok("Job deleted successfully!", "")
      ensures requestedId.Some? && deleted.Failure? ==>
        jobs == old(jobs) && deletingJob == old(deletingJob)
        && notice == Error(ErrorText(deleted.message, "Failed to delete job"), "")
    {
      if deletingJob.None? {
        return None, Silent;
      }
      var id := deletingJob.value.id;
      requestedId := Some(id);
      match deleted
      case Success(_) =>
        jobs := WithoutJob(jobs, id);
        deletingJob := None;
        notice := Ok("Job deleted successfully!", "");
      case Failure(m) =>
        notice := Error(ErrorText(m, "Failed to delete job"), "");
    }

    /** `handleStatusToggle`: requests the toggled status for the job, and once
        the update succeeds replaces every job with its id by the server's copy. */
    method HandleStatusToggle(job: Job, updated: ApiResult<Job>) returns (requested: JobStatus, notice: Notice)
      modifies this`jobs
      ensures requested == ToggledStatus(job.status)
      ensures updated.Success? ==> jobs == WithJobReplaced(old(jobs), job.id, updated.value)
      ensures updated.Success? ==>
        notice == Ok(if requested == Open then "Job reopened successfully!" else "Job closed successfully!", "")
      ensures updated.Failure? ==> jobs == old(jobs)
      ensures updated.Failure? ==> notice == Error(ErrorText(updated.message, "Failed to update job status"), "")
    {
      requested := ToggledStatus(job.status);
      match updated
      case Success(j) =>
        jobs := WithJobReplaced(jobs, job.id, j);
        notice := Ok(if requested == Open then "Job reopened successfully!" else "Job closed successfully!", "");
      case Failure(m) =>
        notice := Error(ErrorText(m, "Failed to update job status"), "");
    }

    /** The Previous button, when shown and enabled: the page cell is decremented,
        but the fetch started in the same click reads the page from before the
        click, so the request is for the current page. */
    method PreviousPage() returns (params: Option<JobQuery>)
      modifies this`pagination, this`loading
      ensures params.Some? <==> PaginationShown(old(loading), old(pagination)) && PreviousEnabled(old(pagination))
      ensures params.Some? ==> params.value == FetchParams(old(pagination), statusFilter, searchQuery)
      ensures params.Some? ==> pagination == old(pagination).(page := old(pagination.page) - 1) && loading
      ensures params.None? ==> pagination == old(pagination) && loading == old(loading)
    {
      if PaginationShown(loading, pagination) && PreviousEnabled(pagination) {
        var p := FetchParams(pagination, statusFilter, searchQuery);
        pagination := pagination.(page := pagination.page - 1);
        loading := true;
        params := Some(p);
      } else {
        params := None;
      }
    }

    /** The Next button, when shown and enabled: like Previous, the page cell is
        incremented while the request is built from the page before the click. */
    method NextPage() returns (params: Option<JobQuery>)
      modifies this`pagination, this`loading
      ensures params.Some? <==> PaginationShown(old(loading), old(pagination)) && NextEnabled(old(pagination))
      ensures params.Some? ==> params.value == FetchParams(old(pagination), statusFilter, searchQuery)
      ensures params.Some? ==> pagination == old(pagination).(page := old(pagination.page) + 1) && loading
      ensures params.None? ==> pagination == old(pagination) && loading == old(loading)
    {
      if PaginationShown(loading, pagination) && NextEnabled(pagination) {
        var p := FetchParams(pagination, statusFilter, searchQuery);
        pagination := pagination.(page := pagination.page + 1);
        loading := true;
        params := Some(p);
      } else {
        params := None;
      }
    }

    /** Previous as evidently intended: the request is built from the page the
        click moves to. */
    method PreviousPageIntended() returns (params: Option<JobQuery>)
      modifies this`pagination, this`loading
      ensures params.Some? <==> PaginationShown(old(loading), old(pagination)) && PreviousEnabled(old(pagination))
      ensures params.Some? ==> pagination == old(pagination).(page := old(pagination.page) - 1) && loading
      ensures params.Some? ==> params.value == FetchParams(pagination, statusFilter, searchQuery)
      ensures params.None? ==> pagination == old(pagination) && loading == old(loading)
    {
      if PaginationShown(loading, pagination) && PreviousEnabled(pagination) {
        pagination := pagination.(page := pagination.page - 1);
        loading := true;
        params := Some(FetchParams(pagination, statusFilter, searchQuery));
      } else {
        params := None;
      }
    }

    /** Next as evidently intended: the request is built from the page the
        click moves to. */
    method NextPageIntended() returns (params: Option<JobQuery>)
      modifies this`pagination, this`loading
      ensures params.Some? <==> PaginationShown(old(loading), old(pagination)) && NextEnabled(old(pagination))
      ensures params.Some? ==> pagination == old(pagination).(page := old(pagination.page) + 1) && loading
      ensures params.Some? ==> params.value == FetchParams(pagination, statusFilter, searchQuery)
      ensures params.None? ==> pagination == old(pagination) && loading == old(loading)
    {
      if PaginationShown(loading, pagination) && NextEnabled(pagination) {
        pagination := pagination.(page := pagination.page + 1);
        loading := true;
        params := Some(FetchParams(pagination, statusFilter, searchQuery));
      } else {
        params := None;
      }
    }
  }

  /** The server's answer to a list request: the given rows and counts, for
      the page and limit that were asked for. */
  function AnswerTo(q: JobQuery, jobs: seq<Job>, total: int, pages: int): (r: JobsListResponse)
    ensures r.page == q.page && r.limit == q.limit && r.jobs == jobs
  {
    JobsListResponse(jobs, total, q.page, q.limit, pages)
  }

  /** As written, clicking Next and receiving the answer to the request it
      sent leaves the page where it was: the answer is for the old page. */
  method NextThenSettle(page: Controller, jobs: seq<Job>, total: int, pages: int)
    requires PaginationShown(page.loading, page.pagination) && NextEnabled(page.pagination)
    modifies page
    ensures page.pagination.page == old(page.pagination.page)
  {
    var params := page.NextPage();
    var _ := page.CompleteFetch(Success(AnswerTo(params.value, jobs, total, pages)));
  }

  /** As written, Previous likewise leaves the page where it was. */
  method PreviousThenSettle(page: Controller, jobs: seq<Job>, total: int, pages: int)
    requires PaginationShown(page.loading, page.pagination) && PreviousEnabled(page.pagination)
    modifies page
    ensures page.pagination.page == old(page.pagination.page)
  {
    var params := page.PreviousPage();
    var _ := page.CompleteFetch(Success(AnswerTo(params.value, jobs, total, pages)));
  }

  /** With the request built from the new page, Next and its answer move the
      page forward by one and show that page's rows. */
  method NextThenSettleIntended(page: Controller, jobs: seq<Job>, total: int, pages: int)
    requires PaginationShown(page.loading, page.pagination) && NextEnabled(page.pagination)
    modifies page
    ensures page.pagination.page == old(page.pagination.page) + 1
    ensures page.jobs == jobs && !page.loading
  {
    var params := page.NextPageIntended();
    var _ := page.CompleteFetch(Success(AnswerTo(params.value, jobs, total, pages)));
  }

  /** With the request built from the new page, Previous and its answer move
      the page back by one and show that page's rows. */
  method PreviousThenSettleIntended(page: Controller, jobs: seq<Job>, total: int, pages: int)
    requires PaginationShown(page.loading, page.pagination) && PreviousEnabled(page.pagination)
    modifies page
    ensures page.pagination.page == old(page.pagination.page) - 1
    ensures page.jobs == jobs && !page.loading
  {
    var params := page.PreviousPageIntended();
    var _ := page.CompleteFetch(Success(AnswerTo(params.value, jobs, total, pages)));
  }
}
