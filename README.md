# Admin panel client state, in Dafny

This project models the client-side state of the company portal's admin
panel. Each screen's state cells become the fields of a class. Each event
handler becomes a method whose `modifies` clause names the cells it sets.
The pure pieces (list filters, list edits, form schemas, default values)
become functions and lemmas. The model covers:

- the job postings screen and the open-jobs list component;
- the projects and contact messages screens, which keep their lists locally;
- the job and project forms: their validation schemas, their default values
  and the project form's tech-stack editor;
- the sign-in page's submit flow;
- the layout that gates every admin route on the session.

An awaited call is not performed. The handler receives how it settled, as
`ApiResult` (`Success(value)` or `Failure(message)`). A handler with an
observable state between its start and its await is split in two:
`BeginFetch` / `CompleteFetch` for the job lists, and `Submit` /
`LoginSettled` for sign-in. A toast is returned as a `Notice` carrying its
title and description.

Modules:

- `Wrappers`: outcomes and validation results.
- `Text`: JavaScript `trim`, ASCII lower-casing and `includes`.
- `Lists`: filtering and keyed updates of arrays.
- `Types`: the entities and their enumerations.
- `JobApi`: the jobs client's request and response shapes, and the list edits made with its answers.
- One module per screen or component: `JobsPage`, `JobList`, `ProjectsPage`, `ContactsPage`, `JobForm`, `ProjectForm`, `LoginPage`, `AdminLayout`.

## Model

| member | source | states |
|---|---|---|
| Wrappers.ErrorText | src/pages/JobsPage.tsx:101 | An error toast shows the error's message when it has one and the fallback text otherwise, so it is never blank. |
| Text.Trim | src/pages/JobsPage.tsx:88 | `trim` returns an infix of the input, and every character before and after it is one JavaScript strips. The result is empty exactly when every character is strippable. Otherwise it neither starts nor ends with such a character. |
| Text.TrimIdempotent | src/components/projects/ProjectForm.tsx:60-61 | Trimming an already trimmed entry changes nothing. |
| Text.OrElse | src/components/jobs/JobForm.tsx:47-54 | `value \|\| fallback` on a string: the value when non-empty, else the fallback. |
| Types.ParseJobType | src/components/jobs/JobForm.tsx:20 | The job-type enumeration accepts exactly the four names, each parsing to its own member. |
| Types.ParseExperience | src/components/jobs/JobForm.tsx:21 | The experience enumeration accepts exactly the four names, each parsing to its own member. |
| Types.ParseJobStatus | src/components/jobs/JobForm.tsx:26 | The job-status enumeration accepts exactly the three names, each parsing to its own member. |
| Types.ParseProjectStatus | src/components/projects/ProjectForm.tsx:25 | The project-status enumeration accepts exactly the four names, each parsing to its own member. |
| JobApi.PaginationOf | src/pages/JobsPage.tsx:94-99 | The pagination cell takes page, limit, total and pages from the list response. |
| JobApi.ToggledStatus | src/pages/JobsPage.tsx:170 | The toggle requests 'closed' exactly for an open job, and never 'draft'. |
| JobApi.ToggleTwice | src/pages/JobsPage.tsx:170 | Toggling twice restores an open or closed job. A draft ends closed. |
| JobApi.WithJobReplaced | src/pages/JobsPage.tsx:145-147 | Every job with the id becomes the server's copy. Every other job stays in place, and the length is unchanged. |
| JobApi.WithoutJob | src/pages/JobsPage.tsx:160 | Removes exactly the jobs with the id, keeps the rest in order, and shrinks the list by their count. |
| JobApi.WithoutListedJob | src/pages/JobsPage.tsx:160 | With distinct ids, deleting a listed job removes exactly that one row. |
| JobApi.ReplaceKeepsUniqueIds | src/pages/JobsPage.tsx:172-174 | Replacing a job by a server copy with the same id keeps the ids distinct. |
| JobsPage.FetchParams | src/pages/JobsPage.tsx:79-90 | The request always carries page and limit. It carries `status` exactly when a status is selected. It carries `search` exactly when the query is not blank after trimming, and then sends the untrimmed query. |
| JobsPage.FilteredJobs | src/pages/JobsPage.tsx:189-201 | A blank query shows every job. Otherwise the view is exactly the jobs matching on title, location, description or salary, ignoring case, in list order. Every occurrence of a matching job is kept, so repeated equal jobs keep all their copies. |
| JobsPage.TitleSearchFindsJob | src/pages/JobsPage.tsx:189-201 | Searching for a listed job's title always shows that job. |
| JobsPage.EnabledButtonsStayInBounds | src/pages/JobsPage.tsx:393-417 | On a page within bounds, an enabled Previous or Next button targets a page within bounds. |
| JobsPage.Controller.constructor | src/pages/JobsPage.tsx:60-73 | Initial cells: no jobs, loading, page 1 of 10, no filter, no query, dialogs closed, and the first search timer pending. |
| JobsPage.Controller.BeginFetch | src/pages/JobsPage.tsx:76-92 | Raises the loading flag and sends the parameters built from the current pagination, filter and query. |
| JobsPage.Controller.CompleteFetch | src/pages/JobsPage.tsx:92-105 | A response replaces the jobs and the pagination. An error keeps both and toasts its message or "Failed to load jobs". Loading and refreshing end false. |
| JobsPage.Controller.Refresh | src/pages/JobsPage.tsx:124-127 | Sets refreshing and starts a fetch with the current parameters. |
| JobsPage.Controller.SetSearchQuery | src/pages/JobsPage.tsx:114-122 | A changed query cancels the pending timer and schedules one that captures this render's state. An unchanged query leaves the timer alone. |
| JobsPage.Controller.SetStatusFilter | src/pages/JobsPage.tsx:253-254 | A changed filter reschedules the search timer in the same way. |
| JobsPage.Controller.SearchTimerFired | src/pages/JobsPage.tsx:115-119 | The timer fetches only if the render that scheduled it was not loading, and then with that render's parameters. The timer is gone afterwards. |
| JobsPage.Controller.OpenAddForm | src/pages/JobsPage.tsx:224-226 | Opens the add form. |
| JobsPage.Controller.StartEdit | src/pages/JobsPage.tsx:366-367 | Selects the job for editing. |
| JobsPage.Controller.CloseForm | src/pages/JobsPage.tsx:426-431 | Closing the dialog clears both the add flag and the edited job. |
| JobsPage.Controller.StartDelete | src/pages/JobsPage.tsx:375-376 | Selects the job for deletion. |
| JobsPage.Controller.CancelDelete | src/pages/JobsPage.tsx:453 | Dismissing the confirmation clears the selection. |
| JobsPage.Controller.HandleAddJob | src/pages/JobsPage.tsx:129-138 | A created job is prepended and the form closes, with "Job created successfully!". On an error the list and the form stay. |
| JobsPage.Controller.HandleEditJob | src/pages/JobsPage.tsx:140-153 | Without an edited job, no request is made and nothing changes. Otherwise the request uses the job's id. On success every job with that id is replaced and editing ends. On an error nothing changes. |
| JobsPage.Controller.SubmitJobForm | src/pages/JobsPage.tsx:443 | Without an edited job it creates: on success the job is prepended, the form closes and "Job created successfully!" shows; on an error the list and form stay and the error toasts. With an edited job it edits: on success the jobs with its id are replaced, editing ends and "Job updated successfully!" shows; on an error nothing changes. The other dialog cell is left alone. |
| JobsPage.Controller.HandleDeleteJob | src/pages/JobsPage.tsx:155-166 | Without a selection, no request is made. On success the jobs with the id are removed and the dialog closes. On an error nothing changes. |
| JobsPage.Controller.HandleStatusToggle | src/pages/JobsPage.tsx:168-179 | Requests the toggled status. On success the server's copy replaces the job, with "Job reopened successfully!" or "Job closed successfully!". On an error the list is kept. |
| JobsPage.Controller.PreviousPage | src/pages/JobsPage.tsx:399-409 | Acts only when the bar is shown and the button is enabled. It decrements the page cell, but its fetch reads the page from before the click. |
| JobsPage.Controller.NextPage | src/pages/JobsPage.tsx:410-420 | Acts only when the bar is shown and the button is enabled. It increments the page cell, but its fetch reads the page from before the click. |
| JobsPage.Controller.PreviousPageIntended | src/pages/JobsPage.tsx:402-405 | The corrected Previous: the same guard and page decrement, with the request built from the new page. |
| JobsPage.Controller.NextPageIntended | src/pages/JobsPage.tsx:413-416 | The corrected Next: the same guard and page increment, with the request built from the new page. |
| JobsPage.AnswerTo | src/pages/JobsPage.tsx:92-99 | A list answer for the page and limit that were requested. |
| JobsPage.PreviousThenSettle | src/pages/JobsPage.tsx:402-405 | As written, Previous followed by the answer to its request leaves the page cell where it was. |
| JobsPage.NextThenSettle | src/pages/JobsPage.tsx:413-416 | As written, Next followed by the answer to its request leaves the page cell where it was. |
| JobsPage.PreviousThenSettleIntended | src/pages/JobsPage.tsx:402-405 | With the corrected button, Previous and its answer move back one page and show that page's rows. |
| JobsPage.NextThenSettleIntended | src/pages/JobsPage.tsx:413-416 | With the corrected button, Next and its answer move forward one page and show that page's rows. |
| JobList.OpenJobsQuery | src/components/jobs/jobLists.tsx:26-33 | The list always requests open jobs, with no search, at the given page and the current limit. |
| JobList.StatusButtonFor | src/components/jobs/jobLists.tsx:174-183 | An open job's button reads "Close" and requests closing. Any other job's button reads "Reopen" and requests opening. |
| JobList.Controller.constructor | src/components/jobs/jobLists.tsx:17-24 | Initial cells: no jobs, loading, page 1 of 10. |
| JobList.Controller.BeginFetch | src/components/jobs/jobLists.tsx:26-33 | Raises loading and requests the given page, or page 1 when none is given. |
| JobList.Controller.CompleteFetch | src/components/jobs/jobLists.tsx:35-50 | A response replaces the jobs and the pagination. An error keeps them and toasts "Error". Loading ends false. |
| JobList.Controller.HandleDelete | src/components/jobs/jobLists.tsx:57-75 | A declined confirmation makes no request. A successful delete refetches the current page. An error does not refetch. |
| JobList.Controller.HandleStatusChange | src/components/jobs/jobLists.tsx:77-93 | A successful update toasts the new status and refetches the current page. An error does not refetch. |
| JobList.Controller.ClickStatusButton | src/components/jobs/jobLists.tsx:177-180 | The card's button requests the toggled status. On success it toasts the new status, raises loading and refetches the current page. On an error it toasts the message or the fallback and leaves loading alone. |
| JobList.Controller.PreviousPage | src/components/jobs/jobLists.tsx:198-211 | Fetches the page before, only when the bar is shown and the list is not on page 1. |
| JobList.Controller.NextPage | src/components/jobs/jobLists.tsx:212-219 | Fetches the page after, only when the bar is shown and the list is not on the last page. |
| ProjectsPage.FilteredProjects | src/pages/ProjectsPage.tsx:60-71 | Shows exactly the projects that match the search on title, description or any technology and that pass the status select, in list order. Every occurrence of a shown project is kept. |
| ProjectsPage.NothingFilteredInitially | src/pages/ProjectsPage.tsx:60-71 | An empty search with 'all' selected shows the whole list. |
| ProjectsPage.TechSearchFindsProject | src/pages/ProjectsPage.tsx:65 | A project is found by the name of any of its technologies. |
| ProjectsPage.NewProject | src/pages/ProjectsPage.tsx:73-78 | A new project carries exactly the form's data, plus the given id and date. |
| ProjectsPage.MergeEdit | src/pages/ProjectsPage.tsx:88 | An edited project carries exactly the form's data and keeps its id and creation date. |
| ProjectsPage.MergeOwnData | src/pages/ProjectsPage.tsx:88 | Merging a project's own data gives the project back. |
| ProjectsPage.WithProjectEdited | src/pages/ProjectsPage.tsx:87-89 | Every project with the id takes the data. The others stay in place. |
| ProjectsPage.WithoutProject | src/pages/ProjectsPage.tsx:97 | Removes exactly the projects with the id and keeps the rest in order. |
| ProjectsPage.EditKeepsDistinctIds | src/pages/ProjectsPage.tsx:87-89 | Editing keeps every id where it was, so distinct ids stay distinct. |
| ProjectsPage.DeleteKeepsDistinctIds | src/pages/ProjectsPage.tsx:97 | Deleting keeps the remaining ids distinct. |
| ProjectsPage.AddFreshKeepsDistinctIds | src/pages/ProjectsPage.tsx:76-79 | Prepending a project with an unused id keeps the ids distinct. |
| ProjectsPage.DeleteListedProject | src/pages/ProjectsPage.tsx:97 | With distinct ids, deleting a listed project removes exactly that one row. |
| ProjectsPage.Controller.constructor | src/pages/ProjectsPage.tsx:53-58 | Initial cells: the seed list, no query, 'all', dialogs closed. |
| ProjectsPage.Controller.SetSearchQuery | src/pages/ProjectsPage.tsx:131 | The search box sets the query. |
| ProjectsPage.Controller.SetStatusFilter | src/pages/ProjectsPage.tsx:136 | The select sets the filter. |
| ProjectsPage.Controller.OpenAddForm | src/pages/ProjectsPage.tsx:112 | Opens the form dialog for adding. |
| ProjectsPage.Controller.StartEdit | src/pages/ProjectsPage.tsx:245 | Opens the form dialog on the project. |
| ProjectsPage.Controller.CloseForm | src/pages/ProjectsPage.tsx:274-279 | Closing the dialog clears both ways of opening it. |
| ProjectsPage.Controller.StartDelete | src/pages/ProjectsPage.tsx:253 | Selects the project for deletion. |
| ProjectsPage.Controller.CancelDelete | src/pages/ProjectsPage.tsx:301 | Dismissing the confirmation clears the selection. |
| ProjectsPage.Controller.HandleAddProject | src/pages/ProjectsPage.tsx:73-82 | The new project goes first and the form closes, with "Project created successfully!". Distinct ids stay distinct when the new id is unused. |
| ProjectsPage.Controller.HandleEditProject | src/pages/ProjectsPage.tsx:84-92 | Without an edited project nothing changes. Otherwise the projects with its id take the data and editing ends. The length is kept and distinct ids are preserved. |
| ProjectsPage.Controller.SubmitProjectForm | src/pages/ProjectsPage.tsx:291 | The form's submit edits while a project is being edited and adds otherwise. |
| ProjectsPage.Controller.HandleDeleteProject | src/pages/ProjectsPage.tsx:94-100 | Without a selection nothing changes. Otherwise the projects with its id go and the dialog closes. Distinct ids are preserved. |
| ContactsPage.FilteredMessages | src/pages/ContactsPage.tsx:44-52 | Shows exactly the messages whose name, email or subject contains the query, ignoring case, in list order. Every occurrence of a matching message is kept. |
| ContactsPage.EmptySearchShowsAll | src/pages/ContactsPage.tsx:44-52 | An empty search shows every message. |
| ContactsPage.Flip | src/pages/ContactsPage.tsx:66 | The toggle always sets the other status. |
| ContactsPage.WithStatus | src/pages/ContactsPage.tsx:67-69 | The messages with the id take the status. The others stay in place. |
| ContactsPage.SetStatusIdempotent | src/pages/ContactsPage.tsx:56-59 | Marking read again changes nothing more. |
| ContactsPage.ToggleTwiceRestores | src/pages/ContactsPage.tsx:64-71 | Toggling a message twice restores the list. |
| ContactsPage.UnreadCount | src/pages/ContactsPage.tsx:81 | The count equals the number of unread messages, counted one by one along the list. It is at most the list length, and zero exactly when every message is read. |
| ContactsPage.MarkReadNeverIncreases | src/pages/ContactsPage.tsx:56-59 | Marking a message read never raises the unread count. |
| ContactsPage.ViewingUnreadLowersCount | src/pages/ContactsPage.tsx:54-62 | Viewing a listed unread message lowers the unread count. |
| ContactsPage.SubtitleFor | src/pages/ContactsPage.tsx:89-91 | Shows "All messages read" exactly when every message is read. Otherwise it shows the positive unread count. |
| ContactsPage.WithoutMessage | src/pages/ContactsPage.tsx:76 | Removes exactly the messages with the id and keeps the rest in order. |
| ContactsPage.DeleteNeverRaisesUnread | src/pages/ContactsPage.tsx:73-79 | Deleting never raises the unread count. |
| ContactsPage.Controller.constructor | src/pages/ContactsPage.tsx:39-42 | Initial cells: the seed list, no query, no viewer, no selection. |
| ContactsPage.Controller.SetSearchQuery | src/pages/ContactsPage.tsx:106 | The search box sets the query. |
| ContactsPage.Controller.HandleViewMessage | src/pages/ContactsPage.tsx:54-62 | An unread message is marked read and a read one changes nothing. The viewer opens on the clicked message. The unread count never rises, and falls for a listed unread message. |
| ContactsPage.Controller.CloseViewer | src/pages/ContactsPage.tsx:234 | Closes the viewer. |
| ContactsPage.Controller.HandleToggleRead | src/pages/ContactsPage.tsx:64-71 | The messages with the id take the opposite status, with the toast "Message marked as " and the new status. |
| ContactsPage.Controller.StartDelete | src/pages/ContactsPage.tsx:209-212 | Selects the message for deletion. |
| ContactsPage.Controller.CancelDelete | src/pages/ContactsPage.tsx:266 | Dismissing the confirmation clears the selection. |
| ContactsPage.Controller.HandleDeleteMessage | src/pages/ContactsPage.tsx:73-79 | Without a selection nothing changes. Otherwise the messages with its id go and the dialog closes. The unread count never rises. |
| JobForm.SchemaCoversEveryField | src/components/jobs/JobForm.tsx:18-27 | The schema checks every field of the form. |
| JobForm.SchemaErrors | src/components/jobs/JobForm.tsx:18-27 | Each rejected field gets an error with its message, and nothing else does. |
| JobForm.ValidateJob | src/components/jobs/JobForm.tsx:18-27 | The form is accepted exactly when no field is rejected, and then the parsed data fills the same form. Otherwise the errors name exactly the rejected fields, each with its message. |
| JobForm.Parsed | src/components/jobs/JobForm.tsx:20-26 | Parsing accepted select values gives data that fills the same form. |
| JobForm.ValidateRoundTrip | src/components/jobs/JobForm.tsx:18-27 | Well-formed data, put into the form, validates back to itself. |
| JobForm.ShortDescriptionRefused | src/components/jobs/JobForm.tsx:24 | A nine-character description is refused with "Description must be at least 10 characters". |
| JobForm.UntouchedCreateFormRefused | src/components/jobs/JobForm.tsx:46-55 | An untouched create form is refused on exactly its five text fields. |
| JobForm.FormDefaults | src/components/jobs/JobForm.tsx:46-55 | Creating starts from the create values. Editing starts from the job's values, with the deadline converted for the date input when present. |
| JobForm.UnchangedEditResubmits | src/components/jobs/JobForm.tsx:46-55 | Submitting an opened, well-formed job unchanged sends that job's data. |
| JobForm.FormDefaultsAsWritten | src/components/jobs/JobForm.tsx:53 | Building the defaults fails exactly for a job with a deadline. |
| JobForm.EditingSavedJobThrows | src/components/jobs/JobForm.tsx:53-59 | As written, no well-formed job can be opened for editing. Without a deadline, the defaults match the corrected ones. |
| JobForm.AcceptedIsWellFormed | src/components/jobs/JobForm.tsx:18-27 | Data the schema accepted is well formed. |
| JobForm.Submit | src/components/jobs/JobForm.tsx:68-78 | `onSubmit` receives data exactly when no submission is running and the schema accepts. The data is then the form's values, well formed. |
| ProjectForm.SchemaCoversEveryField | src/components/projects/ProjectForm.tsx:20-27 | The schema checks every field of the form. |
| ProjectForm.SchemaErrors | src/components/projects/ProjectForm.tsx:20-27 | Each rejected field gets an error with its message, and nothing else does. |
| ProjectForm.ValidateProject | src/components/projects/ProjectForm.tsx:20-27 | The form is accepted exactly when no field is rejected, and then the parsed values fill the same form. Otherwise the errors name exactly the rejected fields, each with its message. |
| ProjectForm.EmptyOptionalUrlsAccepted | src/components/projects/ProjectForm.tsx:23-26 | Empty GitHub and live URLs are accepted, while an empty image is refused with "Must be a valid URL". |
| ProjectForm.Payload | src/components/projects/ProjectForm.tsx:70-80 | The payload is the validated fields with the editor's tech stack. |
| ProjectForm.Submit | src/components/projects/ProjectForm.tsx:70-83 | `onSubmit` receives a payload exactly when no submission is running and the schema accepts. The payload is then the form's values with the current tech stack. |
| ProjectForm.FormDefaults | src/components/projects/ProjectForm.tsx:49-56 | Creating starts from the create values. Editing starts from the project's values, with the placeholder image for an empty image. |
| ProjectForm.UntouchedCreateFormRefused | src/components/projects/ProjectForm.tsx:49-56 | An untouched create form is refused on exactly its title and description. |
| ProjectForm.UnchangedEditResubmits | src/components/projects/ProjectForm.tsx:49-80 | Submitting an opened, well-formed project unchanged sends that project's own data. |
| ProjectForm.AppendFresh | src/components/projects/ProjectForm.tsx:60-61 | Appending an unlisted, clean entry keeps the stack duplicate-free and clean. |
| ProjectForm.AddTechTo | src/components/projects/ProjectForm.tsx:59-64 | The trimmed input is appended and the input cleared exactly when it is non-blank and not yet listed. Otherwise nothing changes. No duplicate or unclean entry is introduced. |
| ProjectForm.RemoveTechFrom | src/components/projects/ProjectForm.tsx:66-68 | Exactly the entries equal to the removed one go. Every other entry keeps all its occurrences, in order, and no duplicate appears. |
| ProjectForm.ActionsKeepNoDuplicates | src/components/projects/ProjectForm.tsx:59-68 | No sequence of typing, adding and removing introduces a duplicate technology. |
| ProjectForm.ActionsKeepEntriesClean | src/components/projects/ProjectForm.tsx:59-64 | No sequence of editor actions introduces a blank or untrimmed entry. |
| ProjectForm.TechEditor.constructor | src/components/projects/ProjectForm.tsx:38-39 | The stack starts as the project's own, or empty, and the input starts empty. |
| ProjectForm.TechEditor.SetTechInput | src/components/projects/ProjectForm.tsx:135 | The input's change handler sets the input. |
| ProjectForm.TechEditor.AddTech | src/components/projects/ProjectForm.tsx:59-64 | The new cells are the `addTech` step of the old ones, and a duplicate-free stack stays duplicate-free. |
| ProjectForm.TechEditor.RemoveTech | src/components/projects/ProjectForm.tsx:66-68 | The new cells are the `removeTech` step of the old ones, and a duplicate-free stack stays duplicate-free. |
| LoginPage.Render | src/pages/LoginPage.tsx:38-40 | An authenticated visitor is redirected to "/admin/dashboard", replacing history. Anyone else sees the form. |
| LoginPage.ValidateLogin | src/pages/LoginPage.tsx:14-17 | The credentials pass exactly when neither field is rejected. Otherwise the errors name exactly the rejected fields, each with its message. |
| LoginPage.DefaultsPass | src/pages/LoginPage.tsx:32-35 | The pre-filled demo credentials pass whenever the address check accepts the demo address. |
| LoginPage.Controller.constructor | src/pages/LoginPage.tsx:24 | No sign-in is running at first. |
| LoginPage.Controller.Submit | src/pages/LoginPage.tsx:42-45 | With the button enabled and valid credentials, the flag is raised and `login` is called with them. Otherwise no call is made, and the errors name exactly the rejected fields. |
| LoginPage.Controller.LoginSettled | src/pages/LoginPage.tsx:45-58 | `true` greets and navigates to the dashboard. `false` reports "Login failed". Either way the flag is lowered. A rejected call toasts nothing, does not navigate and leaves the flag raised. |
| LoginPage.SignIn | src/pages/LoginPage.tsx:42-58 | From an idle page, sign-in navigates exactly when the credentials pass and `login` resolves `true`. A resolved call re-enables the button. |
| AdminLayout.Gate | src/components/layout/AdminLayout.tsx:11-25 | Shows the skeleton exactly while the session loads. A settled session without authentication redirects to "/login", replacing history. An authenticated session gets the shell. |
| AdminLayout.NoRedirectLoop | src/components/layout/AdminLayout.tsx:23-25 | A visitor the layout sends to sign in sees the sign-in form. A visitor the sign-in page sends to the dashboard gets the shell. |

## Left out

- The session context (`AuthContext`), its storage and its restore on load are not part of this model. `isAuthenticated` and `isLoading` are inputs.
- The HTTP client in `job-api.ts`, its base URL, headers and interceptors: each call is replaced by how it settled. A failed `getJobs` rejects, and both job lists handle that rejection with an error toast. The jobs client's other calls (`getJob`, `getJobStats`, `incrementApplications`, `searchJobs`) are used by no modelled screen.
- Dates: `formatDate`, the date input's minimum (tomorrow) and the deadline conversion in the job form are not computed. The conversion is the parameter `toInputDate`. Project ids and creation dates (`Date.now()`, today) are parameters of `HandleAddProject`.
- Text: `toLowerCase` is modelled for ASCII letters only. Lengths count characters, not UTF-16 code units.
- The schema library's URL and email checks are the parameters `isUrl` and `isEmail`.
- JobForm.ErrorMessage, ProjectForm.ErrorMessage: a refused select field gets the fixed text "Invalid enum value", not the library's full message listing the expected values.
- Timing: the 500 ms debounce is modelled as a pending timer that a later call fires. Overlapping requests settling out of order, and handlers reading a stale render's cells after another update, are not modelled. Each handler sees the current cells.
- JobsPage.Controller.PreviousPage / NextPage: modelled as written. The fetch started by the click uses the page from before the click (see Findings). The server is taken to answer a list request for the page it was asked (`AnswerTo`).
- LoginPage.Controller.LoginSettled: when `login` rejects, the handler stops at the await and the submitting flag stays raised. This is modelled as written.
- The initial fetch on mount and the whole fetch (`fetchJobs` in one piece) are the composition of `BeginFetch` and `CompleteFetch`. The timer firing after the first render is `SearchTimerFired`.
- The job list component's `onEdit` and `onView` callbacks are the parent's business and carry no state here.
- Presentation is not modelled: badges, colours, animations, icons, skeleton rows, the empty-state texts, and the dialogs' titles. A toast is its title and description only.
- The seed data of the projects and messages screens are constructor parameters.
- Dashboard, settings, the navigation bar and the sidebars are not part of this model.

## Findings

| source | as written | input that shows it | evidently intended | confidence | as-written member | corrected member |
|---|---|---|---|---|---|---|
| src/components/jobs/JobForm.tsx:53 | The default values call `formatDateForInput`, whose `const` is declared later, at line 59. For a job with a deadline the render throws before the form exists. | Opening any job with a non-empty deadline for editing, which includes every job the schema accepted. | The edit form opens with the job's values and the deadline in the date input's format. | not executed | JobForm.EditingSavedJobThrows | JobForm.UnchangedEditResubmits |
| src/pages/JobsPage.tsx:413-416 | Next sets the page cell to the next page, then calls `fetchJobs`, which still reads the page from before the click. The answer then resets the page cell to that old page. | On page 1 of 3, click Next: the request asks for page 1, and page 1 stays shown. | Next shows the next page. | not executed | JobsPage.NextThenSettle | JobsPage.NextThenSettleIntended |
| src/pages/JobsPage.tsx:402-405 | Previous decrements the page cell but fetches the page from before the click, so the answer puts the old page back. | On page 2 of 3, click Previous: the request asks for page 2, and page 2 stays shown. | Previous shows the previous page. | not executed | JobsPage.PreviousThenSettle | JobsPage.PreviousThenSettleIntended |
