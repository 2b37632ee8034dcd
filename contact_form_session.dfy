/** The single-page form as the page drives it: one event at a time, routed to
    the handler of the control it hits when that control is rendered and
    enabled, with a count of the sends in flight. */
module ContactFormSession {
  import opened FormFields
  import opened ContactForm

  datatype Event =
    | Type(field: Field, value: string)
    | FocusIn(field: Field)
    | FocusOut
    | ClickSubmit
    | SendSettles(result: SendResult)
    | ClickSendAnother
    | TimerFires                       // a 5 s timer armed by an earlier success; never cancelled

  datatype Session = Session(view: FormState, inFlight: nat)

  const Start: Session := Session(Initial, 0)

  /** The browser submits the form only when the inputs marked `required`,
      the name, the email and the message, are not empty. */
  function RequiredFilled(m: FormData): (b: bool)
    requires WellKeyed(m)
    ensures b <==> forall f: Field :: f != Subject ==> m[f] != ""
  {
    assert forall f: Field :: f != Subject ==> m[f] == m[Name] || m[f] == m[Email] || m[f] == m[Message] by {
      forall f: Field ensures f != Subject ==> m[f] == m[Name] || m[f] == m[Email] || m[f] == m[Message] {
        assert f.Name? || f.Email? || f.Subject? || f.Message?;
      }
    }
    Truthy(m[Name]) && Truthy(m[Email]) && Truthy(m[Message])
  }

  /** What holds in every reachable session: the map keeps its keys, at most
      one send is in flight and it is the one `isSubmitting` reports, the status
      stays cleared while a send is pending, and the success panel shows only
      with the success status and never while a send is pending. */
  ghost predicate SessionInv(t: Session)
  {
    && WellKeyed(t.view.formData)
    && t.inFlight == (if t.view.isSubmitting then 1 else 0)
    && (t.view.isSubmitting ==> t.view.submitStatus == NoStatus)
    && (t.view.submitted ==> !t.view.isSubmitting && t.view.submitStatus == SuccessStatus)
  }

  /** One event. While the success panel shows, the form is not rendered; the
      disabled button ignores clicks; a send settles only if one is in flight.
      An event that cannot reach its handler leaves the session unchanged. */
  function Dispatch(t: Session, e: Event): (r: Session)
    requires SessionInv(t)
    ensures SessionInv(r)
    ensures r.inFlight <= 1
  {
    var s := t.view;
    var formShown := !s.submitted;
    match e
    case Type(field, value) =>
      if formShown then t.(view := AfterChange(s, field, value)) else t
    case FocusIn(field) =>
      if formShown then t.(view := AfterFocus(s, field)) else t
    case FocusOut =>
      if formShown then t.(view := AfterBlur(s)) else t
    case ClickSubmit =>
      if formShown && !SubmitDisabled(s) && RequiredFilled(s.formData) then
        Session(AfterSubmitStart(s), t.inFlight + 1)
      else t
    case SendSettles(result) =>
      if t.inFlight > 0 then Session(AfterSubmitSettled(s, result), t.inFlight - 1) else t
    case ClickSendAnother =>
      if s.submitted then t.(view := AfterHide(s)) else t
    case TimerFires =>
      t.(view := AfterHide(s))
  }

  /** A sequence of events, in arrival order. */
  function Run(t: Session, events: seq<Event>): (r: Session)
    requires SessionInv(t)
    ensures SessionInv(r)
    ensures r.inFlight <= 1
    decreases |events|
  {
    if events == [] then t else Run(Dispatch(t, events[0]), events[1..])
  }

  /** From a fresh component, after any events, at most one send is in flight,
      the button is disabled exactly while it is, and the success panel never
      shows beside a pending send. */
  lemma {:induction false} ReachableSessionsAreSound(events: seq<Event>)
    ensures Run(Start, events).inFlight <= 1
    ensures SubmitDisabled(Run(Start, events).view) <==> Run(Start, events).inFlight == 1
    ensures Run(Start, events).view.submitted ==> !SubmitDisabled(Run(Start, events).view)
  {
    assert SessionInv(Start);
  }

  /** A second click on Submit while a send is pending sends nothing. */
  lemma SubmitWhilePendingIsIgnored(t: Session)
    requires SessionInv(t) && t.view.isSubmitting
    ensures Dispatch(t, ClickSubmit) == t
  {
  }
}
