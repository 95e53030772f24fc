/** The project form: its field schema, its default values, the tech-stack
    editor beside the schema's fields, and the payload a submission sends. */
module ProjectForm {
  import opened Wrappers
  import opened Types
  import opened Text
  import Lists

  /** The form's values as the inputs hold them; the status select included. */
  datatype RawProjectForm = RawProjectForm(
    title: string,
    description: string,
    githubUrl: string,
    liveUrl: string,
    status: string,
    image: string)

  datatype ProjectField = TitleField | DescriptionField | GithubUrlField | LiveUrlField | StatusField | ImageField

  /** The schema's keys in declaration order, which is the order of its errors. */
  const SchemaOrder: seq<ProjectField> :=
    [TitleField, DescriptionField, GithubUrlField, LiveUrlField, StatusField, ImageField]

  /** The shortest description the schema accepts. */
  const MinDescription := 10

  /** The image a new project starts with. */
  const PlaceholderImage := "https://images.unsplash.com/photo-1555066931-4365d14bab8c?w=400&h=250&fit=crop"

  /** When the schema rejects a field's value; `isUrl` is the URL check the
      schema library applies. An optional URL field also takes the empty string. */
  predicate Rejected(raw: RawProjectForm, f: ProjectField, isUrl: string -> bool) {
    match f
    case TitleField => raw.title == []
    case DescriptionField => |raw.description| < MinDescription
    case GithubUrlField => !isUrl(raw.githubUrl) && raw.githubUrl != []
    case LiveUrlField => !isUrl(raw.liveUrl) && raw.liveUrl != []
    case StatusField => ParseProjectStatus(raw.status).None?
    case ImageField => !isUrl(raw.image)
  }

  /** The message shown under a rejected field. */
  function ErrorMessage(f: ProjectField): string {
    match f
    case TitleField => "Title is required"
    case DescriptionField => "Description must be at least 10 characters"
    case StatusField => "Invalid enum value"
    case _ => "Must be a valid URL"
  }

  lemma SchemaCoversEveryField(f: ProjectField)
    ensures f in SchemaOrder
  {
    match f
    case TitleField => assert SchemaOrder[0] == f;
    case DescriptionField => assert SchemaOrder[1] == f;
    case GithubUrlField => assert SchemaOrder[2] == f;
    case LiveUrlField => assert SchemaOrder[3] == f;
    case StatusField => assert SchemaOrder[4] == f;
    case ImageField => assert SchemaOrder[5] == f;
  }

  /** The values the schema yields: the form's fields with the status parsed. */
  datatype ProjectValues = ProjectValues(
    title: string,
    description: string,
    githubUrl: string,
    liveUrl: string,
    status: ProjectStatus,
    image: string)

  /** The text the inputs hold for some values. */
  function ToRaw(v: ProjectValues): RawProjectForm {
    RawProjectForm(v.title, v.description, v.githubUrl, v.liveUrl, ProjectStatusName(v.status), v.image)
  }

  /** Different values fill the form differently. */
  lemma ToRawInjective(a: ProjectValues, b: ProjectValues)
    requires ToRaw(a) == ToRaw(b)
    ensures a == b
  {
    assert ParseProjectStatus(ProjectStatusName(a.status)) == Some(a.status);
  }

  /** The schema's errors for a form: each rejected field once, in schema order. */
  function SchemaErrors(raw: RawProjectForm, isUrl: string -> bool): (errors: seq<FieldError<ProjectField>>)
    ensures forall e :: e in errors ==> Rejected(raw, e.field, isUrl) && e.message == ErrorMessage(e.field)
    ensures forall f :: Rejected(raw, f, isUrl) ==> HasErrorFor(errors, f)
  {
    var errors := FieldErrors(SchemaOrder, f => Rejected(raw, f, isUrl), ErrorMessage);
    assert forall f :: Rejected(raw, f, isUrl) ==> HasErrorFor(errors, f) by {
      forall f | Rejected(raw, f, isUrl) ensures HasErrorFor(errors, f) {
        SchemaCoversEveryField(f);
      }
    }
    errors
  }

  /** `projectSchema`: the form is accepted exactly when no field is rejected,
      and then its values, parsed, are the result; otherwise every rejected
      field, and only those, carries its message. */
  function ValidateProject(raw: RawProjectForm, isUrl: string -> bool): (v: Validation<ProjectValues, ProjectField>)
    ensures v.Valid? <==> forall f :: !Rejected(raw, f, isUrl)
    ensures v.Valid? ==> ToRaw(v.value) == raw
    ensures v.Invalid? ==> forall f :: HasErrorFor(v.errors, f) <==> Rejected(raw, f, isUrl)
    ensures v.Invalid? ==> forall e :: e in v.errors ==> e.message == ErrorMessage(e.field)
  {
    var errors := SchemaErrors(raw, isUrl);
    if errors != [] then
      assert errors[0] in errors;
      Invalid(errors)
    else
      assert !Rejected(raw, StatusField, isUrl);
      Valid(ProjectValues(raw.title, raw.description, raw.githubUrl, raw.liveUrl,
                          ParseProjectStatus(raw.status).value, raw.image))
  }

  /** An empty GitHub or live URL is accepted whatever the URL check says,
      while an empty image is refused unless the URL check accepts it. */
  lemma EmptyOptionalUrlsAccepted(raw: RawProjectForm, isUrl: string -> bool)
    requires raw.githubUrl == [] && raw.liveUrl == []
    requires !isUrl([])
    ensures !HasErrorFor(SchemaErrors(raw, isUrl), GithubUrlField)
    ensures !HasErrorFor(SchemaErrors(raw, isUrl), LiveUrlField)
    ensures raw.image == [] ==> FieldError(ImageField, "Must be a valid URL") in SchemaErrors(raw, isUrl)
  {
    var errors := SchemaErrors(raw, isUrl);
    assert !Rejected(raw, GithubUrlField, isUrl) && !Rejected(raw, LiveUrlField, isUrl);
    if raw.image == [] {
      assert Rejected(raw, ImageField, isUrl);
      var e :| e in errors && e.field == ImageField;
      assert e == FieldError(ImageField, "Must be a valid URL");
    }
  }

  /** `handleFormSubmit`: the validated fields together with the current tech stack. */
  function Payload(v: ProjectValues, techStack: seq<string>): (d: ProjectData)
    ensures d.techStack == techStack
    ensures ToRaw(v) == RawProjectForm(d.title, d.description, d.githubUrl, d.liveUrl, ProjectStatusName(d.status), d.image)
  {
    ProjectData(v.title, v.description, techStack, v.githubUrl, v.liveUrl, v.status, v.image)
  }

  /** `handleSubmit(handleFormSubmit)`: `onSubmit` receives a payload only when
      no submission is in progress and the schema accepts the form, and then
      receives the form's values with the editor's tech stack. */
  function Submit(raw: RawProjectForm, techStack: seq<string>, isUrl: string -> bool, isSubmitting: bool): (sent: Option<ProjectData>)
    ensures sent.Some? <==> !isSubmitting && forall f :: !Rejected(raw, f, isUrl)
    ensures sent.Some? ==> sent.value.techStack == techStack
    ensures sent.Some? ==> raw == RawProjectForm(sent.value.title, sent.value.description, sent.value.githubUrl,
                                                 sent.value.liveUrl, ProjectStatusName(sent.value.status), sent.value.image)
  {
    if isSubmitting then None
    else
      var v := ValidateProject(raw, isUrl);
      if v.Valid? then Some(Payload(v.value, techStack)) else None
  }

  /** The values of a new project's form. */
  const CreateDefaults := RawProjectForm("", "", "", "", "active", PlaceholderImage)

  /** The form's default values: a new project's, or the project's own, each
      falling back to the new project's value when empty. */
  function FormDefaults(project: Option<Project>): (r: RawProjectForm)
    ensures project.None? ==> r == CreateDefaults
    ensures project.Some? ==> (r.title == project.value.title && r.description == project.value.description
                               && r.githubUrl == project.value.githubUrl && r.liveUrl == project.value.liveUrl)
    ensures project.Some? ==> r.status == ProjectStatusName(project.value.status)
    ensures project.Some? ==> r.image == if project.value.image == [] then PlaceholderImage else project.value.image
  {
    match project
    case None => CreateDefaults
    case Some(p) =>
      RawProjectForm(OrElse(p.title, []), OrElse(p.description, []), OrElse(p.githubUrl, []),
                     OrElse(p.liveUrl, []), OrElse(ProjectStatusName(p.status), "active"),
                     OrElse(p.image, PlaceholderImage))
  }

  /** An untouched create form is refused for its title and description only,
      as long as the URL check accepts the placeholder image. */
  lemma UntouchedCreateFormRefused(isUrl: string -> bool)
    requires isUrl(PlaceholderImage)
    ensures ValidateProject(CreateDefaults, isUrl).Invalid?
    ensures forall f :: HasErrorFor(ValidateProject(CreateDefaults, isUrl).errors, f) <==>
      f == TitleField || f == DescriptionField
  {
    assert Rejected(CreateDefaults, TitleField, isUrl);
    forall f ensures Rejected(CreateDefaults, f, isUrl) <==> f == TitleField || f == DescriptionField {
    }
  }

  /** A project the schema accepts, with an image. */
  predicate WellFormed(p: Project, isUrl: string -> bool) {
    p.title != [] && |p.description| >= MinDescription
    && (p.githubUrl == [] || isUrl(p.githubUrl)) && (p.liveUrl == [] || isUrl(p.liveUrl))
    && p.image != [] && isUrl(p.image)
  }

  /** Opening a well-formed project and submitting it unchanged sends the
      project's own data. */
  lemma UnchangedEditResubmits(p: Project, isUrl: string -> bool)
    requires WellFormed(p, isUrl)
    ensures Submit(FormDefaults(Some(p)), p.techStack, isUrl, false) == Some(DataOf(p))
  {
    var raw := FormDefaults(Some(p));
    assert forall f :: !Rejected(raw, f, isUrl) by {
      forall f ensures !Rejected(raw, f, isUrl) {
        match f { case _ => }
      }
    }
    var v := ValidateProject(raw, isUrl);
    var values := ProjectValues(p.title, p.description, p.githubUrl, p.liveUrl, p.status, p.image);
    assert ToRaw(v.value) == ToRaw(values);
    ToRawInjective(v.value, values);
  }

  /** The tech-stack editor's two state cells. */
  datatype TechEditorState = TechEditorState(techStack: seq<string>, techInput: string)

  /** An entry the editor itself could have added: non-blank and trimmed. */
  predicate CleanEntry(t: string) {
    t != [] && Trim(t) == t
  }

  /** Appending an unlisted clean entry keeps a stack duplicate-free and clean. */
  lemma AppendFresh(stack: seq<string>, t: string)
    requires t !in stack
    ensures Lists.NoDuplicates(stack) ==> Lists.NoDuplicates(stack + [t])
    ensures (forall u :: u in stack ==> CleanEntry(u)) && CleanEntry(t) ==>
      forall u :: u in stack + [t] ==> CleanEntry(u)
  {
    var r := stack + [t];
    assert forall i :: 0 <= i < |stack| ==> r[i] == stack[i];
  }

  /** `addTech`: the trimmed input is appended, and the input cleared, exactly
      when it is non-blank and not yet listed; otherwise nothing changes. */
  function AddTechTo(s: TechEditorState): (r: TechEditorState)
    ensures r.techStack != s.techStack <==> !AllTrimmable(s.techInput) && Trim(s.techInput) !in s.techStack
    ensures r.techStack != s.techStack ==> r.techStack == s.techStack + [Trim(s.techInput)] && r.techInput == []
    ensures r.techStack == s.techStack ==> r == s
    ensures Lists.NoDuplicates(s.techStack) ==> Lists.NoDuplicates(r.techStack)
    ensures (forall t :: t in s.techStack ==> CleanEntry(t)) ==> forall t :: t in r.techStack ==> CleanEntry(t)
  {
    var t := Trim(s.techInput);
    if t != [] && t !in s.techStack then
      TrimIdempotent(s.techInput);
      AppendFresh(s.techStack, t);
      TechEditorState(s.techStack + [t], [])
    else s
  }

  /** `removeTech`: every entry equal to `tech` goes, the others keep their
      order, and the input is left alone. */
  function RemoveTechFrom(s: TechEditorState, tech: string): (r: TechEditorState)
    ensures r.techInput == s.techInput
    ensures Lists.SubsequenceOf(r.techStack, s.techStack)
    ensures forall t :: t in r.techStack <==> t in s.techStack && t != tech
    ensures forall t :: multiset(r.techStack)[t] == if t != tech then multiset(s.techStack)[t] else 0
    ensures Lists.NoDuplicates(s.techStack) ==> Lists.NoDuplicates(r.techStack)
  {
    Lists.FilterNoDuplicates(s.techStack, t => t != tech);
    TechEditorState(Lists.Filter(s.techStack, t => t != tech), s.techInput)
  }

  /** What the user can do in the editor: type, add (button or Enter), remove a badge. */
  datatype TechAction = Type(text: string) | Add | Remove(tech: string)

  function Step(s: TechEditorState, a: TechAction): TechEditorState {
    match a
    case Type(text) => s.(techInput := text)
    case Add => AddTechTo(s)
    case Remove(tech) => RemoveTechFrom(s, tech)
  }

  function Run(s: TechEditorState, actions: seq<TechAction>): TechEditorState
    decreases |actions|
  {
    if actions == [] then s else Run(Step(s, actions[0]), actions[1..])
  }

  /** Starting from a duplicate-free stack, no sequence of actions introduces a duplicate. */
  lemma {:induction false} ActionsKeepNoDuplicates(s: TechEditorState, actions: seq<TechAction>)
    requires Lists.NoDuplicates(s.techStack)
    ensures Lists.NoDuplicates(Run(s, actions).techStack)
    decreases |actions|
  {
    if actions != [] {
      ActionsKeepNoDuplicates(Step(s, actions[0]), actions[1..]);
    }
  }

  /** Starting from entries the editor could have added, every entry stays
      non-blank and trimmed; in particular a new project's stack always is. */
  lemma {:induction false} ActionsKeepEntriesClean(s: TechEditorState, actions: seq<TechAction>)
    requires forall t :: t in s.techStack ==> CleanEntry(t)
    ensures forall t :: t in Run(s, actions).techStack ==> CleanEntry(t)
    decreases |actions|
  {
    if actions != [] {
      ActionsKeepEntriesClean(Step(s, actions[0]), actions[1..]);
    }
  }

  /** The editor's state cells and handlers. */
  class TechEditor {
    var techStack: seq<string>
    var techInput: string

    /** The stack starts as the project's own (`project?.techStack || []`), the input empty. */
    constructor (project: Option<Project>)
      ensures techStack == (if project.Some? then project.value.techStack else [])
      ensures techInput == []
    {
      techStack := if project.Some? then project.value.techStack else [];
      techInput := [];
    }

    function State(): TechEditorState
      reads this
    {
      TechEditorState(techStack, techInput)
    }

    /** The input's change handler. */
    method SetTechInput(text: string)
      modifies this`techInput
      ensures State() == Step(old(State()), Type(text))
    {
      techInput := text;
    }

    /** `addTech`, run by the Add button and by Enter in the input. */
    method AddTech()
      modifies this`techStack, this`techInput
      ensures State() == AddTechTo(old(State()))
      ensures old(Lists.NoDuplicates(techStack)) ==> Lists.NoDuplicates(techStack)
    {
      var t := Trim(techInput);
      if t != [] && t !in techStack {
        techStack := techStack + [t];
        techInput := [];
      }
    }

    /** `removeTech`, run by a badge's remove button. */
    method RemoveTech(tech: string)
      modifies this`techStack
      ensures State() == RemoveTechFrom(old(State()), tech)
      ensures old(Lists.NoDuplicates(techStack)) ==> Lists.NoDuplicates(techStack)
    {
      techStack := Lists.Filter(techStack, t => t != tech);
    }
  }
}
