/** The job form: the field schema every submission passes through, and the
    values the form starts from when creating or editing a job. */
module JobForm {
  import opened Wrappers
  import opened Types
  import opened Text

  /** The form's values as the inputs hold them: text for every field, the
      three selects included, so that the schema's enum checks have something
      to reject. */
  datatype RawJobForm = RawJobForm(
    title: string,
    jobType: string,
    experience: string,
    salary: string,
    location: string,
    description: string,
    deadline: string,
    status: string)

  datatype JobField = TitleField | TypeField | ExperienceField | SalaryField
                    | LocationField | DescriptionField | DeadlineField | StatusField

  /** The schema's keys in declaration order, which is the order of its errors. */
  const SchemaOrder: seq<JobField> :=
    [TitleField, TypeField, ExperienceField, SalaryField, LocationField, DescriptionField, DeadlineField, StatusField]

  /** The shortest description the schema accepts. */
  const MinDescription := 10

  /** When the schema rejects a field's value. */
  predicate Rejected(raw: RawJobForm, f: JobField) {
    match f
    case TitleField => raw.title == []
    case TypeField => ParseJobType(raw.jobType).None?
    case ExperienceField => ParseExperience(raw.experience).None?
    case SalaryField => raw.salary == []
    case LocationField => raw.location == []
    case DescriptionField => |raw.description| < MinDescription
    case DeadlineField => raw.deadline == []
    case StatusField => ParseJobStatus(raw.status).None?
  }

  /** The message shown under a rejected field. */
  function ErrorMessage(f: JobField): string {
    match f
    case TitleField => "Title is required"
    case SalaryField => "Salary is required"
    case LocationField => "Location is required"
    case DescriptionField => "Description must be at least 10 characters"
    case DeadlineField => "Deadline is required"
    case _ => "Invalid enum value"
  }

  lemma SchemaCoversEveryField(f: JobField)
    ensures f in SchemaOrder
  {
    match f
    case TitleField => assert SchemaOrder[0] == f;
    case TypeField => assert SchemaOrder[1] == f;
    case ExperienceField => assert SchemaOrder[2] == f;
    case SalaryField => assert SchemaOrder[3] == f;
    case LocationField => assert SchemaOrder[4] == f;
    case DescriptionField => assert SchemaOrder[5] == f;
    case DeadlineField => assert SchemaOrder[6] == f;
    case StatusField => assert SchemaOrder[7] == f;
  }

  /** The select values and text a form holds for some job data. */
  function ToRaw(d: JobFormData): RawJobForm {
    RawJobForm(d.title, JobTypeName(d.jobType), ExperienceName(d.experience), d.salary,
               d.location, d.description, d.deadline, JobStatusName(d.status))
  }

  /** The schema's errors for a form: each rejected field once, in schema order. */
  function SchemaErrors(raw: RawJobForm): (errors: seq<FieldError<JobField>>)
    ensures forall e :: e in errors ==> Rejected(raw, e.field) && e.message == ErrorMessage(e.field)
    ensures forall f :: Rejected(raw, f) ==> HasErrorFor(errors, f)
  {
    var errors := FieldErrors(SchemaOrder, f => Rejected(raw, f), ErrorMessage);
    assert forall f :: Rejected(raw, f) ==> HasErrorFor(errors, f) by {
      forall f | Rejected(raw, f) ensures HasErrorFor(errors, f) {
        SchemaCoversEveryField(f);
      }
    }
    errors
  }

  /** `jobSchema`: the form is accepted exactly when no field is rejected, and
      then its values, parsed, are the data; otherwise every rejected field,
      and only those, carries its message. */
  function ValidateJob(raw: RawJobForm): (v: Validation<JobFormData, JobField>)
    ensures v.Valid? <==> forall f :: !Rejected(raw, f)
    ensures v.Valid? ==> ToRaw(v.value) == raw
    ensures v.Invalid? ==> forall f :: HasErrorFor(v.errors, f) <==> Rejected(raw, f)
    ensures v.Invalid? ==> forall e :: e in v.errors ==> e.message == ErrorMessage(e.field)
  {
    var errors := SchemaErrors(raw);
    if errors != [] then
      assert errors[0] in errors;
      Invalid(errors)
    else
      assert !Rejected(raw, TypeField) && !Rejected(raw, ExperienceField) && !Rejected(raw, StatusField);
      Valid(Parsed(raw))
  }

  /** The data a form holds once its three selects hold accepted values. */
  function Parsed(raw: RawJobForm): (d: JobFormData)
    requires !Rejected(raw, TypeField) && !Rejected(raw, ExperienceField) && !Rejected(raw, StatusField)
    ensures ToRaw(d) == raw
  {
    JobFormData(raw.title, ParseJobType(raw.jobType).value, ParseExperience(raw.experience).value,
                raw.salary, raw.location, raw.deadline, raw.description, ParseJobStatus(raw.status).value)
  }

  /** Job data that satisfies the schema's text rules. */
  predicate WellFormed(d: JobFormData) {
    d.title != [] && d.salary != [] && d.location != [] && |d.description| >= MinDescription && d.deadline != []
  }

  /** The schema accepts the form of well-formed data and gives that data back. */
  lemma ValidateRoundTrip(d: JobFormData)
    requires WellFormed(d)
    ensures ValidateJob(ToRaw(d)) == Valid(d)
  {
    var raw := ToRaw(d);
    assert forall f :: !Rejected(raw, f) by {
      forall f ensures !Rejected(raw, f) {
        match f { case _ => }
      }
    }
    var v := ValidateJob(raw);
    assert v.Valid? && ToRaw(v.value) == ToRaw(d);
    ToRawInjective(v.value, d);
  }

  /** Different job data fill the form differently. */
  lemma ToRawInjective(a: JobFormData, b: JobFormData)
    requires ToRaw(a) == ToRaw(b)
    ensures a == b
  {
    assert ParseJobType(JobTypeName(a.jobType)) == Some(a.jobType);
    assert ParseExperience(ExperienceName(a.experience)) == Some(a.experience);
    assert ParseJobStatus(JobStatusName(a.status)) == Some(a.status);
  }

  /** A description one character short of the minimum is refused with its message. */
  lemma ShortDescriptionRefused(raw: RawJobForm)
    requires |raw.description| == MinDescription - 1
    ensures ValidateJob(raw).Invalid?
    ensures FieldError(DescriptionField, "Description must be at least 10 characters") in ValidateJob(raw).errors
  {
    var v := ValidateJob(raw);
    assert Rejected(raw, DescriptionField);
    var e :| e in v.errors && e.field == DescriptionField;
    assert e == FieldError(DescriptionField, "Description must be at least 10 characters");
  }

  /** The values of a new job's form. */
  const CreateDefaults := RawJobForm("", "full-time", "mid", "", "", "", "", "open")

  /** An untouched create form is refused for exactly its five text fields;
      its three selects already hold accepted values. */
  lemma UntouchedCreateFormRefused()
    ensures ValidateJob(CreateDefaults).Invalid?
    ensures forall f :: HasErrorFor(ValidateJob(CreateDefaults).errors, f) <==>
      f !in {TypeField, ExperienceField, StatusField}
  {
    assert Rejected(CreateDefaults, TitleField);
    forall f ensures Rejected(CreateDefaults, f) <==> f !in {TypeField, ExperienceField, StatusField} {
    }
  }

  /** The form's default values, with the deadline converted to the date
      input's format by `toInputDate` when the job has one. Creating starts
      from `CreateDefaults`; editing starts from the job's own values, each
      falling back to the create value when empty. */
  function FormDefaults(job: Option<Job>, toInputDate: string -> string): (r: RawJobForm)
    ensures job.None? ==> r == CreateDefaults
    ensures job.Some? ==> (r.title == job.value.title && r.salary == job.value.salary
                           && r.location == job.value.location && r.description == job.value.description)
    ensures job.Some? ==> (r.jobType == JobTypeName(job.value.jobType) && r.experience == ExperienceName(job.value.experience)
                           && r.status == JobStatusName(job.value.status))
    ensures job.Some? ==> r.deadline == if job.value.deadline == [] then [] else toInputDate(job.value.deadline)
  {
    match job
    case None => CreateDefaults
    case Some(j) =>
      RawJobForm(OrElse(j.title, []), OrElse(JobTypeName(j.jobType), "full-time"),
                 OrElse(ExperienceName(j.experience), "mid"), OrElse(j.salary, []),
                 OrElse(j.location, []), OrElse(j.description, []),
                 if j.deadline != [] then toInputDate(j.deadline) else [],
                 OrElse(JobStatusName(j.status), "open"))
  }

  /** The job's data with its deadline as the date input holds it. */
  function EditedData(j: Job, toInputDate: string -> string): JobFormData {
    JobFormData(j.title, j.jobType, j.experience, j.salary, j.location,
                if j.deadline == [] then [] else toInputDate(j.deadline), j.description, j.status)
  }

  /** Opening a job in the form and submitting it unchanged sends the job's own
      data, provided that data is well formed. */
  lemma UnchangedEditResubmits(j: Job, toInputDate: string -> string)
    requires WellFormed(EditedData(j, toInputDate))
    ensures ValidateJob(FormDefaults(Some(j), toInputDate)) == Valid(EditedData(j, toInputDate))
  {
    ValidateRoundTrip(EditedData(j, toInputDate));
    assert ToRaw(EditedData(j, toInputDate)) == FormDefaults(Some(j), toInputDate);
  }

  /** The defaults as written: the deadline is converted by a helper whose
      `const` declaration comes after the default values are built, so for a
      job with a deadline the render throws before the form exists (`None`). */
  function FormDefaultsAsWritten(job: Option<Job>): (r: Option<RawJobForm>)
    ensures r.None? <==> job.Some? && job.value.deadline != []
  {
    if job.Some? && job.value.deadline != [] then None
    else Some(FormDefaults(job, _ => []))
  }

  /** As written, no job the schema produced can be edited: its deadline is
      non-empty, so the form throws; without a deadline it agrees with the
      corrected defaults. */
  lemma EditingSavedJobThrows(j: Job, toInputDate: string -> string)
    ensures WellFormed(EditedData(j, toInputDate)) ==> FormDefaultsAsWritten(Some(j)) == None
    ensures j.deadline == [] ==> FormDefaultsAsWritten(Some(j)) == Some(FormDefaults(Some(j), toInputDate))
    ensures FormDefaultsAsWritten(None) == Some(FormDefaults(None, toInputDate))
  {
  }

  /** Data the schema accepted is well formed. */
  lemma AcceptedIsWellFormed(raw: RawJobForm, d: JobFormData)
    requires forall f :: !Rejected(raw, f)
    requires ToRaw(d) == raw
    ensures WellFormed(d)
  {
    assert !Rejected(raw, TitleField) && !Rejected(raw, SalaryField) && !Rejected(raw, LocationField);
    assert !Rejected(raw, DescriptionField) && !Rejected(raw, DeadlineField);
  }

  /** `handleSubmit(handleFormSubmit)`: `onSubmit` receives data only when no
      submission is in progress (the submit button is disabled then) and the
      schema accepts the form, and then receives exactly the form's values. */
  function Submit(raw: RawJobForm, isSubmitting: bool): (sent: Option<JobFormData>)
    ensures sent.Some? <==> !isSubmitting && forall f :: !Rejected(raw, f)
    ensures sent.Some? ==> ToRaw(sent.value) == raw && WellFormed(sent.value)
  {
    if isSubmitting then None
    else
      var v := ValidateJob(raw);
      if v.Valid? then
        AcceptedIsWellFormed(raw, v.value);
        Some(v.value)
      else None
  }
}
