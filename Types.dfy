/** The entities the admin screens show and edit, with the string literals
    their enumerations are written as in forms and requests. */
module Types {
  import opened Wrappers

  datatype JobType = FullTime | PartTime | Contract | Internship
  datatype Experience = Entry | Mid | Senior | Lead
  datatype JobStatus = Open | Closed | Draft

  /** A job posting as the server returns it; `id` is the server-assigned `_id`. */
  datatype Job = Job(
    id: string,
    title: string,
    jobType: JobType,
    experience: Experience,
    salary: string,
    location: string,
    deadline: string,
    description: string,
    status: JobStatus,
    applicationsCount: int,
    isActive: bool,
    createdAt: string,
    updatedAt: string)

  /** The fields a job form submits (the job minus its server-managed fields). */
  datatype JobFormData = JobFormData(
    title: string,
    jobType: JobType,
    experience: Experience,
    salary: string,
    location: string,
    deadline: string,
    description: string,
    status: JobStatus)

  datatype ProjectStatus = Active | Completed | InProgress | Archived

  datatype Project = Project(
    id: string,
    title: string,
    description: string,
    techStack: seq<string>,
    githubUrl: string,
    liveUrl: string,
    status: ProjectStatus,
    image: string,
    createdAt: string)

  /** A project without its `id` and `createdAt`: what the project form submits. */
  datatype ProjectData = ProjectData(
    title: string,
    description: string,
    techStack: seq<string>,
    githubUrl: string,
    liveUrl: string,
    status: ProjectStatus,
    image: string)

  /** The project-independent part of a project: what the form edits. */
  function DataOf(p: Project): (d: ProjectData) {
    ProjectData(p.title, p.description, p.techStack, p.githubUrl, p.liveUrl, p.status, p.image)
  }

  datatype MessageStatus = Read | Unread

  datatype ContactMessage = ContactMessage(
    id: string,
    name: string,
    email: string,
    subject: string,
    message: string,
    status: MessageStatus,
    createdAt: string)

  function JobTypeName(t: JobType): string {
    match t
    case FullTime => "full-time"
    case PartTime => "part-time"
    case Contract => "contract"
    case Internship => "internship"
  }

  function ExperienceName(e: Experience): string {
    match e
    case Entry => "entry"
    case Mid => "mid"
    case Senior => "senior"
    case Lead => "lead"
  }

  function JobStatusName(s: JobStatus): string {
    match s
    case Open => "open"
    case Closed => "closed"
    case Draft => "draft"
  }

  function ProjectStatusName(s: ProjectStatus): string {
    match s
    case Active => "active"
    case Completed => "completed"
    case InProgress => "in-progress"
    case Archived => "archived"
  }

  function MessageStatusName(s: MessageStatus): string {
    match s
    case Read => "read"
    case Unread => "unread"
  }

  /** Enumeration membership, `z.enum([...])`: a literal parses exactly when it
      is the name of a member, and then to that member. */
  function ParseJobType(s: string): (r: Option<JobType>)
    ensures forall t :: s == JobTypeName(t) ==> r == Some(t)
    ensures r.Some? ==> JobTypeName(r.value) == s
  {
    if s == "full-time" then Some(FullTime)
    else if s == "part-time" then Some(PartTime)
    else if s == "contract" then Some(Contract)
    else if s == "internship" then Some(Internship)
    else None
  }

  function ParseExperience(s: string): (r: Option<Experience>)
    ensures forall e :: s == ExperienceName(e) ==> r == Some(e)
    ensures r.Some? ==> ExperienceName(r.value) == s
  {
    if s == "entry" then Some(Entry)
    else if s == "mid" then Some(Mid)
    else if s == "senior" then Some(Senior)
    else if s == "lead" then Some(Lead)
    else None
  }

  function ParseJobStatus(s: string): (r: Option<JobStatus>)
    ensures forall t :: s == JobStatusName(t) ==> r == Some(t)
    ensures r.Some? ==> JobStatusName(r.value) == s
  {
    if s == "open" then Some(Open)
    else if s == "closed" then Some(Closed)
    else if s == "draft" then Some(Draft)
    else None
  }

  function ParseProjectStatus(s: string): (r: Option<ProjectStatus>)
    ensures forall t :: s == ProjectStatusName(t) ==> r == Some(t)
    ensures r.Some? ==> ProjectStatusName(r.value) == s
  {
    if s == "active" then Some(Active)
    else if s == "completed" then Some(Completed)
    else if s == "in-progress" then Some(InProgress)
    else if s == "archived" then Some(Archived)
    else None
  }
}
