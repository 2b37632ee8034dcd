/** The wizard as the page drives it: one user or environment event at a time,
    each routed to the handler of the control it hits, and only when that
    control is rendered and enabled. The session also counts the sends in
    flight and records every body posted, so that the invariants the page
    relies on can be stated over every sequence of events. */
module InteractiveContactFormSession {
  import opened FormFields
  import opened InteractiveContactForm

  datatype Event =
    | Type(value: string)              // onChange of the one rendered input, the current step's
    | ClickBack
    | ClickNext
    | KeyDown(key: string)             // onKeyDown of the rendered input
    | ClickSubmit
    | FetchSettles(result: FetchResult)
    | ClickSendAnother
    | TimerFires                       // a 5 s timer armed by an earlier success; never cancelled

  datatype Session = Session(view: WizardState, inFlight: nat, sent: seq<FormData>)

  const Start: Session := Session(Initial, 0, [])

  /** What holds in every reachable session: the cursor is in range and every
      step before it is filled, the success panel never shows while a send is
      pending, at most one send is in flight and it is the one `isSubmitting`
      reports, and every body posted has all four fields filled. */
  ghost predicate SessionInv(t: Session)
  {
    && Inv(t.view)
    && PrefixFilled(t.view)
    && (t.view.submitted ==> !t.view.isSubmitting)
    && t.inFlight == (if t.view.isSubmitting then 1 else 0)
    && forall i :: 0 <= i < |t.sent| ==> Complete(t.sent[i])
  }

  /** One event. While the success panel shows, the form is not rendered; the
      Next button exists only before the last step and Submit only on it;
      disabled buttons ignore clicks; a send settles only if one is in flight.
      An event that cannot reach its handler leaves the session unchanged. */
  function Dispatch(t: Session, e: Event): (r: Session)
    requires SessionInv(t)
    ensures SessionInv(r)
    ensures r.inFlight <= 1
    ensures |t.sent| <= |r.sent| <= |t.sent| + 1 && r.sent[..|t.sent|] == t.sent
  {
    var s := t.view;
    var formShown := !s.submitted;
    match e
    case Type(value) =>
      if formShown then
        InputKeepsPrefixFilled(s, value);
        t.(view := AfterInput(s, StepField(s.activeStep), value))
      else t
    case ClickBack =>
      if formShown && BackEnabled(s) then t.(view := AfterPrev(s)) else t
    case ClickNext =>
      if formShown && !OnLastStep(s) && NextEnabled(s) then
        NextKeepsPrefixFilled(s);
        t.(view := AfterNext(s))
      else t
    case KeyDown(key) =>
      if formShown then
        NextKeepsPrefixFilled(s);
        t.(view := AfterKeyDown(s, key))
      else t
    case ClickSubmit =>
      if formShown && OnLastStep(s) && SubmitEnabled(s) then
        Session(AfterSubmitStart(s), t.inFlight + 1, t.sent + [s.formData])
      else t
    case FetchSettles(result) =>
      if t.inFlight > 0 then Session(AfterSubmitSettled(s, result), t.inFlight - 1, t.sent) else t
    case ClickSendAnother =>
      if s.submitted then t.(view := AfterHide(s)) else t
    case TimerFires =>
      t.(view := AfterHide(s))
  }

  /** A sequence of events, in arrival order. */
  function Run(t: Session, events: seq<Event>): (r: Session)
    requires SessionInv(t)
    ensures SessionInv(r)
    ensures r.inFlight <= 1
    ensures |t.sent| <= |r.sent| && r.sent[..|t.sent|] == t.sent
    decreases |events|
  {
    if events == [] then t else Run(Dispatch(t, events[0]), events[1..])
  }

  lemma StartIsValid()
    ensures SessionInv(Start)
  {
  }

  /** From a fresh component, after any events, the cursor is within the
      steps table, at most one send is in flight, and every body posted has
      all four fields filled: Submit is reached only through steps that were
      filled and is enabled only with a message. */
  lemma {:induction false} ReachableSessionsAreSound(events: seq<Event>)
    ensures 0 <= Run(Start, events).view.activeStep < |Steps|
    ensures Run(Start, events).inFlight <= 1
    ensures forall p :: p in Run(Start, events).sent ==> Complete(p)
  {
    StartIsValid();
    var r := Run(Start, events);
    forall p | p in r.sent ensures Complete(p) {
      var i :| 0 <= i < |r.sent| && r.sent[i] == p;
    }
  }

  /** A second click on Submit while a send is pending posts nothing. */
  lemma SubmitWhilePendingIsIgnored(t: Session)
    requires SessionInv(t) && t.view.isSubmitting
    ensures Dispatch(t, ClickSubmit) == t
  {
  }
}
