/** The task form's state: values, which fields were touched, validation errors and
    the submission status, driven by a reducer. */
module TaskFormReducer {
  import opened Wrappers
  import opened Text

  datatype Field = Title | Description

  datatype FormValues = FormValues(title: string, description: string)

  /** `initialData`: any subset of the values. */
  datatype InitialData = InitialData(title: Option<string>, description: Option<string>)

  /** The only error key is the title's. */
  datatype FormErrors = FormErrors(title: Option<string>)

  datatype SubmitStatus = Idle | Submitting | SubmitFailed

  datatype FormState = FormState(
    values: FormValues,
    touched: set<Field>,
    errors: FormErrors,
    status: SubmitStatus,
    submissionError: Option<string>)

  datatype FormAction =
    | SetFieldValue(field: Field, value: string)
    | SetFieldTouched(touchedField: Field)
    | SubmitStart
    | SubmitSuccess
    | SubmitError(message: string)

  const TitleRequiredMessage: string := "Название задачи не может быть пустым"
  const UnknownErrorMessage: string := "Произошла неизвестная ошибка"

  /** `validate`: an error on the title exactly when it is blank after trimming. */
  function Validate(v: FormValues): (e: FormErrors)
    ensures e.title.Some? <==> Trim(v.title) == []
    ensures e.title.Some? ==> e.title.value == TitleRequiredMessage
  {
    if Trim(v.title) == [] then FormErrors(Some(TitleRequiredMessage)) else FormErrors(None)
  }

  /** `Object.keys(errors).length > 0`. */
  predicate HasErrors(e: FormErrors)
  {
    e.title.Some?
  }

  function SetValue(v: FormValues, f: Field, value: string): FormValues
  {
    match f
    case Title => v.(title := value)
    case Description => v.(description := value)
  }

  /** The form has no fields but the title and the description. */
  lemma OnlyTwoFields(fs: set<Field>)
    ensures fs <= {Title, Description}
  {
    forall f | f in fs ensures f in {Title, Description} {
      if f.Title? {} else {}
    }
  }

  /** `{ ...previous, ...latest }`: keys present in `latest` override. */
  function MergeErrors(previous: FormErrors, latest: FormErrors): FormErrors
  {
    if latest.title.Some? then latest else previous
  }

  /** The state the form starts from: empty strings, overridden by `initialData`. */
  function InitialState(data: Option<InitialData>): (s: FormState)
    ensures s.touched == {} && s.errors == FormErrors(None) && s.status == Idle && s.submissionError == None
    ensures data.None? ==> s.values == FormValues("", "")
    ensures data.Some? ==> s.values == FormValues(data.value.title.GetOr(""), data.value.description.GetOr(""))
  {
    var d := data.GetOr(InitialData(None, None));
    FormState(FormValues(d.title.GetOr(""), d.description.GetOr("")), {}, FormErrors(None), Idle, None)
  }

  /** `formReducer`. Touched fields stay touched, a new title error is always the
      required-title message, and submitting starts only from a title that is not blank. */
  function Reduce(s: FormState, a: FormAction): (r: FormState)
    ensures s.touched <= r.touched
    ensures r.errors.title.Some? && r.errors != s.errors ==> r.errors.title == Some(TitleRequiredMessage)
    ensures r.status == Submitting ==> s.status == Submitting || Trim(r.values.title) != []
  {
    match a
    case SetFieldValue(f, value) =>
      var values := SetValue(s.values, f, value);
      s.(values := values, errors := if f in s.touched then Validate(values) else s.errors)
    case SetFieldTouched(f) =>
      if f in s.touched then s
      else s.(touched := s.touched + {f}, errors := MergeErrors(s.errors, Validate(s.values)))
    case SubmitStart =>
      var errors := Validate(s.values);
      OnlyTwoFields(s.touched);
      if HasErrors(errors) then s.(errors := errors, touched := {Title, Description})
      else s.(status := Submitting, submissionError := None)
    case SubmitSuccess => s.(status := Idle)
    case SubmitError(message) => s.(status := SubmitFailed, submissionError := Some(message))
  }

  // ---- Properties ----

  /** The description is never validated. */
  lemma DescriptionNotValidated(v: FormValues, d: string)
    ensures Validate(v.(description := d)) == Validate(v)
  {
  }

  /** Setting a value changes only that field; errors are recomputed only when the
      field was already touched. */
  lemma SetFieldValueChangesOneField(s: FormState, f: Field, value: string)
    ensures var r := Reduce(s, SetFieldValue(f, value));
      && (f == Title ==> r.values.title == value && r.values.description == s.values.description)
      && (f == Description ==> r.values.description == value && r.values.title == s.values.title)
      && (f in s.touched ==> r.errors == Validate(r.values))
      && (f !in s.touched ==> r.errors == s.errors)
      && r.touched == s.touched && r.status == s.status && r.submissionError == s.submissionError
  {
  }

  /** Touching a touched field changes nothing, so touching is idempotent. */
  lemma SetFieldTouchedIdempotent(s: FormState, f: Field)
    ensures f in s.touched ==> Reduce(s, SetFieldTouched(f)) == s
    ensures Reduce(Reduce(s, SetFieldTouched(f)), SetFieldTouched(f)) == Reduce(s, SetFieldTouched(f))
  {
  }

  /** Touching marks the field and may add the title error but never removes it. */
  lemma SetFieldTouchedOnlyAddsErrors(s: FormState, f: Field)
    ensures var r := Reduce(s, SetFieldTouched(f));
      && f in r.touched && s.touched <= r.touched
      && (s.errors.title.Some? ==> r.errors.title.Some?)
      && (f !in s.touched && Trim(s.values.title) == [] ==> r.errors.title == Some(TitleRequiredMessage))
      && r.values == s.values
  {
  }

  /** Submitting invalid values stores the errors and touches both fields, leaving the
      status alone; submitting valid values starts the submission. */
  lemma SubmitStartOutcomes(s: FormState)
    ensures var r := Reduce(s, SubmitStart);
      && r.values == s.values
      && (Trim(s.values.title) == [] ==>
            r.errors == FormErrors(Some(TitleRequiredMessage)) && r.touched == {Title, Description}
            && r.status == s.status && r.submissionError == s.submissionError)
      && (Trim(s.values.title) != [] ==>
            r.status == Submitting && r.submissionError == None && r.errors == s.errors && r.touched == s.touched)
  {
  }

  /** The submission ends idle on success and failed, with the message, on error. */
  lemma SubmitEndOutcomes(s: FormState, message: string)
    ensures Reduce(s, SubmitSuccess).status == Idle
    ensures Reduce(s, SubmitError(message)).status == SubmitFailed
    ensures Reduce(s, SubmitError(message)).submissionError == Some(message)
  {
  }

  /** Only setting a field's value changes the values. */
  lemma OnlySetFieldValueChangesValues(s: FormState, a: FormAction)
    requires !a.SetFieldValue?
    ensures Reduce(s, a).values == s.values
  {
  }

  /** The state reaches `Submitting` only with a title that is not blank. */
  lemma SubmittingImpliesValid(s: FormState)
    requires s.status != Submitting
    ensures Reduce(s, SubmitStart).status == Submitting <==> Trim(s.values.title) != []
  {
  }

  /** `handleSubmit`: SUBMIT_START, and when the values are valid a call to `onSubmit`
      whose outcome is `None` on success or the thrown message; an empty message is
      replaced by a generic one. Returns the final state and the values submitted. */
  function HandleSubmit(s: FormState, thrown: Option<string>): (r: (FormState, Option<FormValues>))
    ensures r.1.Some? <==> Trim(s.values.title) != []
    ensures r.1.Some? ==> r.1.value == s.values
    ensures r.1.None? ==> r.0.status == s.status && r.0.touched == {Title, Description}
    ensures r.1.Some? && thrown.None? ==> r.0.status == Idle
    ensures r.1.Some? && thrown.Some? ==>
              r.0.status == SubmitFailed && r.0.submissionError.Some? && r.0.submissionError.value != []
    ensures r.1.Some? && thrown == Some([]) ==> r.0.submissionError == Some(UnknownErrorMessage)
    ensures r.1.Some? && thrown.Some? && thrown.value != [] ==> r.0.submissionError == thrown
  {
    var started := Reduce(s, SubmitStart);
    if HasErrors(Validate(s.values)) then (started, None)
    else
      match thrown
      case None => (Reduce(started, SubmitSuccess), Some(s.values))
      case Some(m) =>
        (Reduce(started, SubmitError(if m == [] then UnknownErrorMessage else m)), Some(s.values))
  }
}
