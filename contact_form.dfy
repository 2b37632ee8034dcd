/** The single-page contact form: the four-field map, a marker for the one
    focused field (which decides where each floating label sits), and a
    submit lifecycle with `isSubmitting`, `submitted` and a `submitStatus`
    record shown as a banner above the fields.

    As for the wizard, each handler is specified by a pure `After…` function
    and the class `Component` performs those transitions on mutable fields. */
module ContactForm {
  import opened FormFields

  /** `submitStatus`: the empty object `{}` or `{ success, message }`. */
  datatype SubmitStatus = SubmitStatus(success: Option<bool>, message: Option<string>)

  const NoStatus: SubmitStatus := SubmitStatus(None, None)

  const SuccessMessage: string := "Your message has been sent successfully!"

  const FallbackErrorMessage: string := "There was an error sending your message. Please try again."

  const SuccessStatus: SubmitStatus := SubmitStatus(Some(true), Some(SuccessMessage))

  /** A value thrown into the catch block: an `Error` instance with its
      `message`, or any other value. */
  datatype Thrown = ErrorInstance(message: string) | NonError

  /** How the awaited call settles: it resolves, or it throws. */
  datatype SendResult = Resolved | Threw(thrown: Thrown)

  datatype FormState = FormState(
    formData: FormData,
    activeField: Option<Field>,
    isSubmitting: bool,
    submitted: bool,
    submitStatus: SubmitStatus)

  /** The values the `useState` hooks start from. */
  const Initial: FormState := FormState(EmptyForm(), None, false, false, NoStatus)

  /** A field's label floats above the input when the field is focused or holds
      a truthy value. */
  predicate LabelRaised(s: FormState, f: Field)
    requires WellKeyed(s.formData)
  {
    s.activeField == Some(f) || Truthy(s.formData[f])
  }

  /** The submit button is disabled while a send is pending, whatever the
      fields hold. */
  predicate SubmitDisabled(s: FormState)
  {
    s.isSubmitting
  }

  /** The status banner shows when `submitStatus.message` is truthy. */
  function BannerShown(s: FormState): (b: bool)
    ensures s.submitStatus == NoStatus ==> !b
    ensures s.submitStatus == SuccessStatus ==> b
    ensures b ==> s.submitStatus.message.Some? && s.submitStatus.message.value != ""
  {
    s.submitStatus.message.Some? && Truthy(s.submitStatus.message.value)
  }

  /** The banner text of the catch block. */
  function FailureMessage(e: Thrown): (m: string)
    ensures e.ErrorInstance? ==> m == e.message
    ensures e.NonError? ==> m == FallbackErrorMessage && Truthy(m)
  {
    match e
    case ErrorInstance(message) => message
    case NonError => FallbackErrorMessage
  }

  /** `handleChange`: overwrite one field, nothing else. */
  function AfterChange(s: FormState, name: Field, value: string): (r: FormState)
    requires WellKeyed(s.formData)
    ensures WellKeyed(r.formData)
    ensures r.formData[name] == value
    ensures forall g :: g != name ==> r.formData[g] == s.formData[g]
    ensures r.activeField == s.activeField && r.isSubmitting == s.isSubmitting
    ensures r.submitted == s.submitted && r.submitStatus == s.submitStatus
  {
    s.(formData := Assign(s.formData, name, value))
  }

  /** `handleFocus`: `f` becomes the one focused field; the map is untouched. */
  function AfterFocus(s: FormState, f: Field): (r: FormState)
    ensures r.activeField == Some(f)
    ensures forall g :: g != f ==> r.activeField != Some(g)
    ensures r == s.(activeField := r.activeField)
  {
    s.(activeField := Some(f))
  }

  /** `handleBlur`: no field is focused; the map is untouched. */
  function AfterBlur(s: FormState): (r: FormState)
    ensures forall g :: r.activeField != Some(g)
    ensures r == s.(activeField := r.activeField)
  {
    s.(activeField := None)
  }

  /** `handleSubmit` up to the awaited call: disable the button and clear the
      status, which hides the banner. */
  function AfterSubmitStart(s: FormState): (r: FormState)
    ensures SubmitDisabled(r) && !BannerShown(r) && r.submitStatus == NoStatus
    ensures r.formData == s.formData && r.activeField == s.activeField && r.submitted == s.submitted
  {
    s.(isSubmitting := true, submitStatus := NoStatus)
  }

  /** `handleSubmit` after the awaited call. If it resolves: the success
      status, an empty form and the success panel. If it throws: a failure
      status carrying the error's message or the fallback text, with the map
      and `submitted` kept. Either way the button is enabled again. */
  function AfterSubmitSettled(s: FormState, result: SendResult): (r: FormState)
    requires WellKeyed(s.formData)
    ensures WellKeyed(r.formData) && !SubmitDisabled(r)
    ensures r.activeField == s.activeField
    ensures result.Resolved? ==>
      r.submitStatus == SuccessStatus && r.formData == EmptyForm() && r.submitted
    ensures result.Threw? ==>
      r.submitStatus == SubmitStatus(Some(false), Some(FailureMessage(result.thrown)))
    ensures result.Threw? ==> r.formData == s.formData && r.submitted == s.submitted
  {
    match result
    case Resolved =>
      s.(submitStatus := SuccessStatus, formData := EmptyForm(), submitted := true, isSubmitting := false)
    case Threw(e) =>
      s.(submitStatus := SubmitStatus(Some(false), Some(FailureMessage(e))), isSubmitting := false)
  }

  /** "Send Another Message" and the 5 s timer: hide the success panel. */
  function AfterHide(s: FormState): (r: FormState)
    ensures !r.submitted
    ensures r == s.(submitted := r.submitted)
  {
    s.(submitted := false)
  }

  /** Focusing `f` raises `f`'s label and leaves every other label raised
      exactly when its field is filled. */
  lemma FocusRaisesOnlyItsLabel(s: FormState, f: Field, g: Field)
    requires WellKeyed(s.formData)
    ensures LabelRaised(AfterFocus(s, f), g) <==> g == f || Truthy(s.formData[g])
  {
  }

  /** After a blur, a label is raised exactly when its field is filled. */
  lemma BlurLeavesFilledLabelsRaised(s: FormState, g: Field)
    requires WellKeyed(s.formData)
    ensures LabelRaised(AfterBlur(s), g) <==> Truthy(s.formData[g])
  {
  }

  /** Clearing the focused field keeps its label raised while it has focus. */
  lemma TypingKeepsFocusedLabelRaised(s: FormState, f: Field, value: string)
    requires WellKeyed(s.formData) && s.activeField == Some(f)
    ensures LabelRaised(AfterChange(s, f, value), f)
  {
  }

  /** Focus alone raises at most one label: two raised labels on empty fields
      belong to the same field. */
  lemma AtMostOneEmptyLabelRaised(s: FormState, f: Field, g: Field)
    requires WellKeyed(s.formData)
    requires LabelRaised(s, f) && !Truthy(s.formData[f])
    requires LabelRaised(s, g) && !Truthy(s.formData[g])
    ensures f == g
  {
  }

  /** A failed send keeps the map from just before Submit was pressed and
      shows a failure banner unless the error's own message is empty. */
  lemma FailedSubmitKeepsForm(s: FormState, e: Thrown)
    requires WellKeyed(s.formData) && !SubmitDisabled(s)
    ensures AfterSubmitSettled(AfterSubmitStart(s), Threw(e)).formData == s.formData
    ensures AfterSubmitSettled(AfterSubmitStart(s), Threw(e)).submitted == s.submitted
    ensures BannerShown(AfterSubmitSettled(AfterSubmitStart(s), Threw(e))) <==>
      (e.NonError? || Truthy(e.message))
  {
  }

  /** After a success, every label is down unless its field is focused. */
  lemma SuccessLowersUnfocusedLabels(s: FormState, g: Field)
    requires WellKeyed(s.formData) && s.activeField != Some(g)
    ensures !LabelRaised(AfterSubmitSettled(s, Resolved), g)
  {
  }

  /** The component's state, in the fields its hooks update. */
  class Component {
    var formData: FormData
    var activeField: Option<Field>
    var isSubmitting: bool
    var submitted: bool
    var submitStatus: SubmitStatus

    function State(): FormState
      reads this
    {
      FormState(formData, activeField, isSubmitting, submitted, submitStatus)
    }

    predicate Valid()
      reads this
    {
      WellKeyed(formData)
    }

    constructor ()
      ensures Valid() && State() == Initial
    {
      formData := EmptyForm();
      activeField := None;
      isSubmitting := false;
      submitted := false;
      submitStatus := NoStatus;
    }

    method HandleChange(name: Field, value: string)
      requires Valid()
      modifies this
      ensures Valid() && State() == AfterChange(old(State()), name, value)
    {
      formData := formData[name := value];
    }

    method HandleFocus(field: Field)
      requires Valid()
      modifies this
      ensures Valid() && State() == AfterFocus(old(State()), field)
    {
      activeField := Some(field);
    }

    method HandleBlur()
      requires Valid()
      modifies this
      ensures Valid() && State() == AfterBlur(old(State()))
    {
      activeField := None;
    }

    /** The part of `handleSubmit` before the awaited call. Only the disabled
        button keeps a second send out, so its enabling condition is this
        method's precondition. */
    method StartSubmit()
      requires Valid() && !SubmitDisabled(State())
      modifies this
      ensures Valid() && State() == AfterSubmitStart(old(State()))
    {
      isSubmitting := true;
      submitStatus := NoStatus;
    }

    /** The part of `handleSubmit` after the awaited call: the rest of the try
        block, the catch block and the finally block. */
    method SettleSubmit(result: SendResult)
      requires Valid() && isSubmitting
      modifies this
      ensures Valid() && State() == AfterSubmitSettled(old(State()), result)
    {
      match result {
        case Resolved =>
          submitStatus := SuccessStatus;
          formData := EmptyForm();
          submitted := true;
        case Threw(e) =>
          submitStatus := SubmitStatus(Some(false), Some(FailureMessage(e)));
      }
      isSubmitting := false;
    }

    /** The whole of `handleSubmit` when no other event arrives while the call
        is pending. */
    method HandleSubmit(result: SendResult)
      requires Valid() && !SubmitDisabled(State())
      modifies this
      ensures Valid() && !isSubmitting && activeField == old(activeField)
      ensures result.Resolved? ==>
        submitStatus == SuccessStatus && formData == EmptyForm() && submitted
      ensures result.Threw? ==>
        submitStatus == SubmitStatus(Some(false), Some(FailureMessage(result.thrown)))
      ensures result.Threw? ==> formData == old(formData) && submitted == old(submitted)
    {
      StartSubmit();
      SettleSubmit(result);
    }

    /** The "Send Another Message" button. */
    method Dismiss()
      requires Valid()
      modifies this
      ensures Valid() && State() == AfterHide(old(State()))
    {
      submitted := false;
    }

    /** The 5 s timer armed on success; it is never cancelled. */
    method TimerFired()
      requires Valid()
      modifies this
      ensures Valid() && State() == AfterHide(old(State()))
    {
      submitted := false;
    }
  }
}
