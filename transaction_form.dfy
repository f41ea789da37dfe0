/**
 * The submit handler of the income and expense forms: three checks in a
 * fixed order, then a call to the caller's save callback with the cleaned
 * values. The callbacks and the toast are outside the model; what they do
 * is an input (whether saving throws, whether a success hook is present and
 * whether it throws) and what the handler does to them is the outcome.
 */
module TransactionForm {
  import opened Wrappers
  import opened JsText
  import opened Ledger
  import Validation

  /** The raw fields of the form. */
  datatype TransactionFormData = TransactionFormData(category: string, amount: string, note: string, tag: Option<Tag>)

  /** What `onSubmit` receives. */
  datatype Submission = Submission(category: string, amount: JsNumber, note: string, tag: Option<Tag>)

  /** The optional `onSuccess` callback. */
  datatype SuccessHook = NoHook | HookReturns | HookThrows

  /**
   * What one call does: the boolean it resolves to, the error toast it
   * shows (if any), the payload it passes to `onSubmit` (if it gets that
   * far) and whether it calls `onSuccess`.
   */
  datatype FormOutcome = FormOutcome(returned: bool, toast: Option<string>, submitted: Option<Submission>, successCalled: bool)

  /** The three checks, in order; `None` when all pass. */
  function FirstProblem(form: TransactionFormData): (r: Option<string>)
    ensures r.None? <==> !AllWhitespace(form.category) && Validation.Positive(ParseFloat(form.amount)) && !AllWhitespace(form.note)
    ensures AllWhitespace(form.category) ==> r == Some("Please select a category")
    ensures !AllWhitespace(form.category) && !Validation.Positive(ParseFloat(form.amount)) ==>
      r == Some("Please enter a valid amount greater than 0")
    ensures !AllWhitespace(form.category) && Validation.Positive(ParseFloat(form.amount)) && AllWhitespace(form.note) ==>
      r == Some("Please enter a note")
  {
    TrimEmptyIffBlank(form.category);
    TrimEmptyIffBlank(form.note);
    var amount := ParseFloat(form.amount);
    if Trim(form.category) == "" then Some("Please select a category")
    else if !Validation.Positive(amount) then
      Some("Please enter a valid amount greater than 0")
    else if Trim(form.note) == "" then Some("Please enter a note")
    else None
  }

  /** `validateAndSubmit(formData)`. */
  function ValidateAndSubmit(form: TransactionFormData, submitThrows: bool, onSuccess: SuccessHook): (r: FormOutcome)
    ensures r.submitted.Some? <==> FirstProblem(form).None?
    ensures r.submitted.Some? ==>
      r.submitted.value == Submission(Trim(form.category), ParseFloat(form.amount), Trim(form.note), form.tag)
    ensures r.returned <==> FirstProblem(form).None? && !submitThrows && !onSuccess.HookThrows?
    ensures r.successCalled <==> FirstProblem(form).None? && !submitThrows && !onSuccess.NoHook?
    ensures r.returned <==> r.toast.None?
    ensures FirstProblem(form).Some? ==> r.toast == FirstProblem(form)
    ensures r.submitted.Some? && !r.returned ==> r.toast == Some("Failed to save. Please try again.")
  {
    match FirstProblem(form)
    case Some(message) => FormOutcome(false, Some(message), None, false)
    case None =>
      var payload := Submission(Trim(form.category), ParseFloat(form.amount), Trim(form.note), form.tag);
      if submitThrows then FormOutcome(false, Some("Failed to save. Please try again."), Some(payload), false)
      else if onSuccess.NoHook? then FormOutcome(true, None, Some(payload), false)
      else if onSuccess.HookReturns? then FormOutcome(true, None, Some(payload), true)
      else FormOutcome(false, Some("Failed to save. Please try again."), Some(payload), true)
  }

  /** The form's amount check agrees with `validateAmount` on the typed text. */
  lemma AmountCheckIsValidateAmount(form: TransactionFormData)
    requires !AllWhitespace(form.category)
    ensures FirstProblem(form) == Some("Please enter a valid amount greater than 0") <==>
      Validation.ValidateAmount(Validation.Text(form.amount)).Invalid?
  {
  }

  /**
   * What reaches `onSubmit` is clean: category and note are non-empty and
   * carry no surrounding whitespace, and the amount is a positive number.
   */
  lemma SubmissionIsClean(form: TransactionFormData, submitThrows: bool, onSuccess: SuccessHook)
    requires ValidateAndSubmit(form, submitThrows, onSuccess).submitted.Some?
    ensures var p := ValidateAndSubmit(form, submitThrows, onSuccess).submitted.value;
      && p.category != "" && Trim(p.category) == p.category
      && p.note != "" && Trim(p.note) == p.note
      && Validation.Positive(p.amount)
  {
    TrimEmptyIffBlank(form.category);
    TrimEmptyIffBlank(form.note);
    TrimIdempotent(form.category);
    TrimIdempotent(form.note);
  }
}
