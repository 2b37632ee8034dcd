/** The step-by-step contact wizard: a step cursor over a fixed table of four
    steps, the four-field map, and the `isSubmitting` / `submitted` flags of the
    submit lifecycle.

    Each handler is specified by a pure function `After…` from the state before
    the event to the state after it; the class `Component` holds the state in
    mutable fields, as the component's hooks do, and its methods are proved to
    perform exactly those transitions. */
module InteractiveContactForm {
  import opened FormFields

  /** One row of the `steps` table. */
  datatype StepInfo = StepInfo(id: Field, prompt: string, placeholder: string)

  const Steps: seq<StepInfo> := [
    StepInfo(Name, "What's your name?", "Enter your full name"),
    StepInfo(Email, "What's your email?", "Enter your email address"),
    StepInfo(Subject, "What's your project about?", "Enter subject/project type"),
    StepInfo(Message, "Tell us about your project", "Describe your project in detail...")
  ]

  /** `steps[i].id`: each field appears at exactly one step, and only the last
      step collects the message. */
  function StepField(i: int): (f: Field)
    requires 0 <= i < |Steps|
    ensures forall j :: 0 <= j < |Steps| && j != i ==> Steps[j].id != f
    ensures f == Message <==> i == |Steps| - 1
  {
    Steps[i].id
  }

  /** The outcome of the awaited `fetch`: a response with its `ok` flag, or a
      rejection (a thrown error). */
  datatype FetchResult = Response(ok: bool) | Rejected

  predicate Succeeded(result: FetchResult)
  {
    result.Response? && result.ok
  }

  datatype WizardState = WizardState(
    formData: FormData,
    activeStep: int,
    isSubmitting: bool,
    submitted: bool)

  /** The values the `useState` hooks start from. */
  const Initial: WizardState := WizardState(EmptyForm(), 0, false, false)

  /** The cursor indexes the steps table and the map keeps its four keys. */
  predicate Inv(s: WizardState)
  {
    WellKeyed(s.formData) && 0 <= s.activeStep < |Steps|
  }

  /** The Next button is enabled when the current step's value is truthy.
      Before the last step, it is enabled exactly when clicking it moves the
      cursor: the button's test agrees with the guard inside `nextStep`. */
  function NextEnabled(s: WizardState): (b: bool)
    requires Inv(s)
    ensures !OnLastStep(s) ==> (b <==> AfterNext(s) != s)
  {
    Truthy(s.formData[StepField(s.activeStep)])
  }

  /** The Submit button is enabled when no send is pending and the message is
      truthy. Reached through the filled steps before it, the test on the
      message alone is a test on the whole form. */
  function SubmitEnabled(s: WizardState): (b: bool)
    requires Inv(s)
    ensures OnLastStep(s) && PrefixFilled(s) ==> (b <==> !s.isSubmitting && Complete(s.formData))
  {
    assert OnLastStep(s) && PrefixFilled(s) && Truthy(s.formData[Message]) ==> Complete(s.formData) by {
      if OnLastStep(s) && PrefixFilled(s) && Truthy(s.formData[Message]) {
        forall f: Field ensures f in s.formData && Truthy(s.formData[f]) {
          assert f == StepField(0) || f == StepField(1) || f == StepField(2) || f == Message;
        }
      }
    }
    !s.isSubmitting && Truthy(s.formData[Message])
  }

  /** The Back button is enabled on every step but the first, the name step. */
  function BackEnabled(s: WizardState): (b: bool)
    requires Inv(s)
    ensures b <==> Steps[s.activeStep].id != Name
  {
    s.activeStep != 0
  }

  /** The last step, the message step, shows the Submit button where the
      others show Next. */
  function OnLastStep(s: WizardState): (b: bool)
    requires Inv(s)
    ensures b <==> Steps[s.activeStep].id == Message
  {
    s.activeStep == |Steps| - 1
  }

  /** Every step before the cursor holds a truthy value. */
  predicate PrefixFilled(s: WizardState)
    requires Inv(s)
  {
    forall i :: 0 <= i < s.activeStep ==> Truthy(s.formData[StepField(i)])
  }

  /** All four fields are truthy. */
  predicate Complete(m: FormData)
  {
    forall f: Field :: f in m && Truthy(m[f])
  }

  /** `handleInputChange`: overwrite one field, nothing else. */
  function AfterInput(s: WizardState, name: Field, value: string): (r: WizardState)
    requires Inv(s)
    ensures Inv(r)
    ensures r.formData[name] == value
    ensures forall g :: g != name ==> r.formData[g] == s.formData[g]
    ensures r.activeStep == s.activeStep && r.isSubmitting == s.isSubmitting && r.submitted == s.submitted
  {
    s.(formData := Assign(s.formData, name, value))
  }

  /** `nextStep`: move forward exactly when the current value is truthy and the
      cursor is not on the last step; otherwise nothing changes. */
  function AfterNext(s: WizardState): (r: WizardState)
    requires Inv(s)
    ensures Inv(r)
    ensures r.activeStep == s.activeStep + 1 <==> Truthy(s.formData[StepField(s.activeStep)]) && !OnLastStep(s)
    ensures r.activeStep != s.activeStep + 1 ==> r == s
    ensures r.formData == s.formData && r.isSubmitting == s.isSubmitting && r.submitted == s.submitted
  {
    var currentField := StepField(s.activeStep);
    if !Truthy(s.formData[currentField]) then s
    else if s.activeStep < |Steps| - 1 then s.(activeStep := s.activeStep + 1)
    else s
  }

  /** `prevStep`: move back exactly when the cursor is past the first step,
      whatever the fields hold. */
  function AfterPrev(s: WizardState): (r: WizardState)
    requires Inv(s)
    ensures Inv(r)
    ensures r.activeStep == s.activeStep - 1 <==> BackEnabled(s)
    ensures r.activeStep != s.activeStep - 1 ==> r == s
    ensures r.formData == s.formData && r.isSubmitting == s.isSubmitting && r.submitted == s.submitted
  {
    if s.activeStep > 0 then s.(activeStep := s.activeStep - 1) else s
  }

  /** `handleKeyDown`: Enter before the last step acts as Next; any other key,
      and Enter on the last step, change nothing. */
  function AfterKeyDown(s: WizardState, key: string): (r: WizardState)
    requires Inv(s)
    ensures Inv(r)
    ensures key == "Enter" && !OnLastStep(s) ==> r == AfterNext(s)
    ensures key != "Enter" || OnLastStep(s) ==> r == s
  {
    if key == "Enter" && s.activeStep < |Steps| - 1 then AfterNext(s) else s
  }

  /** `handleSubmit` up to the awaited call: raise `isSubmitting`, which
      disables the Submit button. */
  function AfterSubmitStart(s: WizardState): (r: WizardState)
    requires Inv(s)
    ensures Inv(r) && r.isSubmitting && !SubmitEnabled(r)
    ensures r.formData == s.formData && r.activeStep == s.activeStep && r.submitted == s.submitted
  {
    s.(isSubmitting := true)
  }

  /** `handleSubmit` after the awaited call: on an ok response clear the
      fields, go back to the first step and show the success panel; on a
      non-ok response or a rejection keep everything. `isSubmitting` ends false
      either way. */
  function AfterSubmitSettled(s: WizardState, result: FetchResult): (r: WizardState)
    requires Inv(s)
    ensures Inv(r) && !r.isSubmitting
    ensures Succeeded(result) ==>
      r.formData == EmptyForm() && r.activeStep == 0 && r.submitted
    ensures !Succeeded(result) ==>
      r.formData == s.formData && r.activeStep == s.activeStep && r.submitted == s.submitted
  {
    if Succeeded(result) then
      WizardState(EmptyForm(), 0, false, true)
    else
      s.(isSubmitting := false)
  }

  /** "Send Another Message" and the 5 s timer: hide the success panel. */
  function AfterHide(s: WizardState): (r: WizardState)
    ensures !r.submitted
    ensures r.formData == s.formData && r.activeStep == s.activeStep && r.isSubmitting == s.isSubmitting
  {
    s.(submitted := false)
  }

  /** Back undoes a Next that moved. */
  lemma PrevUndoesNext(s: WizardState)
    requires Inv(s) && AfterNext(s) != s
    ensures AfterPrev(AfterNext(s)) == s
  {
  }

  /** Next undoes Back when every earlier step is filled, which is how the
      wizard's reachable states look. */
  lemma NextUndoesPrev(s: WizardState)
    requires Inv(s) && PrefixFilled(s) && BackEnabled(s)
    ensures AfterNext(AfterPrev(s)) == s
  {
    assert Truthy(s.formData[StepField(s.activeStep - 1)]);
  }

  /** Typing into the one rendered input, the current step's, keeps every
      earlier step filled. */
  lemma InputKeepsPrefixFilled(s: WizardState, value: string)
    requires Inv(s) && PrefixFilled(s)
    ensures PrefixFilled(AfterInput(s, StepField(s.activeStep), value))
  {
    var r := AfterInput(s, StepField(s.activeStep), value);
    forall i | 0 <= i < r.activeStep
      ensures Truthy(r.formData[StepField(i)])
    {
      assert StepField(i) != StepField(s.activeStep);
    }
  }

  /** Next and Enter keep every earlier step filled: they only pass a filled step. */
  lemma NextKeepsPrefixFilled(s: WizardState)
    requires Inv(s) && PrefixFilled(s)
    ensures PrefixFilled(AfterNext(s))
  {
  }

  /** A failed send restores the state from just before Submit was pressed. */
  lemma FailedSubmitRestores(s: WizardState, result: FetchResult)
    requires Inv(s) && SubmitEnabled(s) && !Succeeded(result)
    ensures AfterSubmitSettled(AfterSubmitStart(s), result) == s
  {
  }

  /** A successful send followed by hiding the panel is the initial state. */
  lemma SucceededSubmitThenHideIsInitial(s: WizardState, result: FetchResult)
    requires Inv(s) && SubmitEnabled(s) && Succeeded(result)
    ensures AfterHide(AfterSubmitSettled(AfterSubmitStart(s), result)) == Initial
  {
  }

  /** No trimming: any non-empty value at a step before the last, a single
      space included, lets Next advance. */
  lemma NonEmptyValueLetsNextAdvance(s: WizardState, value: string)
    requires Inv(s) && !OnLastStep(s) && value != ""
    ensures AfterNext(AfterInput(s, StepField(s.activeStep), value)).activeStep == s.activeStep + 1
  {
  }

  /** The steps table asks for each field once, in the order name, email,
      subject, message. */
  lemma StepsAskEveryFieldInOrder()
    ensures |Steps| == 4
    ensures Steps[0].id == Name && Steps[1].id == Email
    ensures Steps[2].id == Subject && Steps[3].id == Message
    ensures (set i | 0 <= i < |Steps| :: Steps[i].id) == AllFields
  {
    var ids := set i | 0 <= i < |Steps| :: Steps[i].id;
    assert Steps[0].id in ids && Steps[1].id in ids && Steps[2].id in ids && Steps[3].id in ids;
  }

  /** The subject step is gated like every other: an empty subject blocks Next. */
  lemma EmptySubjectBlocksNext(s: WizardState)
    requires Inv(s) && s.activeStep == 2 && s.formData[Subject] == ""
    ensures AfterNext(s) == s
  {
  }

  /** The component's state, in the fields its hooks update. */
  class Component {
    var formData: FormData
    var activeStep: int
    var isSubmitting: bool
    var submitted: bool

    function State(): WizardState
      reads this
    {
      WizardState(formData, activeStep, isSubmitting, submitted)
    }

    predicate Valid()
      reads this
    {
      Inv(State())
    }

    constructor ()
      ensures Valid() && State() == Initial
    {
      formData := EmptyForm();
      activeStep := 0;
      isSubmitting := false;
      submitted := false;
    }

    method HandleInputChange(name: Field, value: string)
      requires Valid()
      modifies this
      ensures Valid() && State() == AfterInput(old(State()), name, value)
    {
      formData := formData[name := value];
    }

    method NextStep()
      requires Valid()
      modifies this
      ensures Valid() && State() == AfterNext(old(State()))
    {
      var currentField := Steps[activeStep].id;
      if !Truthy(formData[currentField]) {
        return;
      }
      if activeStep < |Steps| - 1 {
        activeStep := activeStep + 1;
      }
    }

    method PrevStep()
      requires Valid()
      modifies this
      ensures Valid() && State() == AfterPrev(old(State()))
    {
      if activeStep > 0 {
        activeStep := activeStep - 1;
      }
    }

    method HandleKeyDown(key: string)
      requires Valid()
      modifies this
      ensures Valid() && State() == AfterKeyDown(old(State()), key)
    {
      if key == "Enter" && activeStep < |Steps| - 1 {
        NextStep();
      }
    }

    /** The part of `handleSubmit` before the awaited call; returns the body it
        posts. Only the disabled Submit button keeps a second send out, so the
        button's enabling condition is this method's precondition. */
    method StartSubmit() returns (payload: FormData)
      requires Valid() && SubmitEnabled(State())
      modifies this
      ensures Valid() && State() == AfterSubmitStart(old(State()))
      ensures payload == old(formData)
    {
      isSubmitting := true;
      payload := formData;
    }

    /** The part of `handleSubmit` after the awaited call: the rest of the try
        block, the catch block (which only logs) and the finally block. */
    method SettleSubmit(result: FetchResult)
      requires Valid() && isSubmitting
      modifies this
      ensures Valid() && State() == AfterSubmitSettled(old(State()), result)
    {
      if Succeeded(result) {
        formData := EmptyForm();
        activeStep := 0;
        submitted := true;
      }
      isSubmitting := false;
    }

    /** The whole of `handleSubmit` when no other event arrives while the call
        is pending. */
    method HandleSubmit(result: FetchResult) returns (payload: FormData)
      requires Valid() && SubmitEnabled(State())
      modifies this
      ensures Valid() && payload == old(formData) && !isSubmitting
      ensures Succeeded(result) ==> formData == EmptyForm() && activeStep == 0 && submitted
      ensures !Succeeded(result) ==> State() == old(State())
    {
      payload := StartSubmit();
      SettleSubmit(result);
    }

    /** The "Send Another Message" button. */
    method Dismiss()
      requires Valid()
      modifies this
      ensures Valid() && State() == AfterHide(old(State()))
    {
      submitted := false;
    }

    /** The 5 s timer armed on success; it is never cancelled. */
    method TimerFired()
      requires Valid()
      modifies this
      ensures Valid() && State() == AfterHide(old(State()))
    {
      submitted := false;
    }
  }
}
