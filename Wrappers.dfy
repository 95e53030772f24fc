/** Outcomes shared by every screen: awaited API calls, toasts and form validation. */
module Wrappers {

  datatype Option<+T> = None | Some(value: T)

  /** How an awaited call settled: with its resolved value, or rejected with an
      error whose `message` is given ("" when the error carries none). */
  datatype ApiResult<+T> = Success(value: T) | Failure(message: string)

  /** The toast a handler raises, if any: a title and an optional description. */
  datatype Notice = Silent | Ok(title: string, detail: string) | Error(title: string, detail: string)

  /** One field-scoped validation message. */
  datatype FieldError<F> = FieldError(field: F, message: string)

  /** A schema check either yields the parsed form data or the list of field errors. */
  datatype Validation<T, F> = Valid(value: T) | Invalid(errors: seq<FieldError<F>>)

  /** True when some error in `errors` belongs to `field`. */
  predicate HasErrorFor<F(==)>(errors: seq<FieldError<F>>, field: F) {
    exists e :: e in errors && e.field == field
  }

  /** The errors a schema reports for the listed fields, in the order listed:
      one per field `rejected` holds for, carrying that field's message. */
  function FieldErrors<F(==)>(fields: seq<F>, rejected: F -> bool, message: F -> string): (errors: seq<FieldError<F>>)
    ensures forall e :: e in errors ==> e.field in fields && rejected(e.field) && e.message == message(e.field)
    ensures forall f :: f in fields && rejected(f) ==> HasErrorFor(errors, f)
  {
    if fields == [] then []
    else
      var rest := FieldErrors(fields[1..], rejected, message);
      var f := fields[0];
      if rejected(f) then
        assert FieldError(f, message(f)) in [FieldError(f, message(f))] + rest;
        [FieldError(f, message(f))] + rest
      else rest
  }

  /** The text of an error toast: `error.message || fallback`. */
  function ErrorText(message: string, fallback: string): (t: string)
    ensures t == message || t == fallback
    ensures message != [] ==> t == message
    ensures fallback != [] ==> t != []
  {
    if message != [] then message else fallback
  }
}
