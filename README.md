# Contact forms of the celesti agency site, modelled in Dafny

The site has two contact-form components, and they are the only part of it with
state worth reasoning about. Both are modelled here.

- **InteractiveContactForm** is a four-step wizard. A step cursor `activeStep` runs
  over a fixed `steps` table (name, email, subject, message). A four-key
  `formData` map holds the text entered so far. Next moves forward only when the
  current step's value is non-empty, and Back moves back. Enter acts as Next on
  every step but the last. The submit lifecycle uses two flags, `isSubmitting`
  and `submitted` (the success panel).
- **ContactForm** is the single-page variant. It uses the same map, one focus
  marker `activeField`, floating labels, and a submit lifecycle that also fills a
  `submitStatus` record shown as a banner.

## How the model is built

- `fields.dfy` (module `FormFields`) holds the shared pieces:
  - the `Field` ids and the `FormData` map with its key invariant;
  - JavaScript string truthiness (`Truthy`: only `""` is falsy, nothing is trimmed);
  - the `{ ...prev, [name]: value }` update;
  - a proof that after any sequence of edits each field holds its last edited value.
- `interactive_contact_form.dfy` and `contact_form.dfy` each model one component.
  Every handler is a pure function `After<Handler>` from the state before an event
  to the state after it. Its `ensures` state the guard and what the handler leaves
  unchanged. The class `Component` keeps the same state in mutable fields, as the
  hooks do. Each of its methods is proved to perform exactly the matching `After…`
  transition and to keep the class invariant `Valid()`.
- An async `handleSubmit` is two transitions:
  - `StartSubmit` is everything before the `await`;
  - `SettleSubmit(result)` is the rest of `try`, then `catch` and `finally`, run
    when the outcome arrives.

  Other events may come in between. `HandleSubmit` runs the two back to back.
- The network call and the simulated delay are injected outcomes. For the wizard
  this is `FetchResult`: an `ok`/non-ok response, or a rejection. For the
  single-page form it is `SendResult`: it resolves, or it throws an `Error` with a
  message or some other value. The 5 s timer is an explicit `TimerFired` event,
  always allowed, because the code never cancels it.
- `interactive_contact_form_session.dfy` and `contact_form_session.dfy` model the
  page as a stream of events. Each event goes to its handler only when the control
  it hits is rendered and enabled:
  - the form is hidden while the success panel shows;
  - Next exists only before the last step, and Submit only on it;
  - disabled buttons ignore clicks;
  - the single-page form is submitted only when its `required` inputs are filled.

  A session also counts the sends in flight and, for the wizard, records every
  body it posts. The proofs (`Dispatch`, `Run`, `ReachableSessionsAreSound`) show
  the following hold after every sequence of events:
  - the cursor stays in range;
  - at most one send is in flight, and `isSubmitting` reports it;
  - in the wizard, every step before the cursor is filled, so every posted body has all four fields filled;
  - in the single-page form, the status stays cleared while a send is pending, and
    the success panel only shows with the success status.

Behaviour of the code that is easy to misread:

- **Emptiness is not trimmed.** A value made of spaces counts as filled
  (`NonEmptyValueLetsNextAdvance`).
- **Every step is gated, subject included.** The `steps` table has no per-field
  `required` flag (`EmptySubjectBlocksNext`).
- **No double-submit guard inside the handler.** Only the disabled button stops a
  second send. This is the precondition of `StartSubmit` / `HandleSubmit`, and in
  sessions a click on the disabled button is ignored.
- **The wizard has no failure state.** A failed send is only logged, and the
  state is left as it was (`FailedSubmitRestores`).
- **Hiding the success panel cancels nothing.** The "Send Another Message"
  button and the timer both set only `submitted := false`, and the timer is never
  cancelled.
- **Only a success arms the timer, and the timer hides only the success panel.**
  In the single-page form, the status banner (success or failure) stays until
  the next submit clears it.

## Model

| member | source | states |
|---|---|---|
| `FormFields.EmptyForm` | src/components/sections/InteractiveContactForm.tsx:8-13 | the initial map has all four keys, every value empty |
| `FormFields.WellKeyedKeys` | src/components/sections/InteractiveContactForm.tsx:8-13 | a map with an entry for every field has exactly the key set {name, email, subject, message} |
| `FormFields.Assign` | src/components/sections/ContactForm.tsx:36-39 | the spread update sets `name` to `value`, leaves every other entry unchanged, adds no key but `name`, and keeps the four-key invariant |
| `FormFields.ApplyEdits` | src/components/sections/ContactForm.tsx:32-40 | a sequence of change events keeps every key and the four-key invariant, and every edited field is present |
| `FormFields.EditsKeepLastValue` | src/components/sections/InteractiveContactForm.tsx:31-37 | after any edit sequence each field holds its last edited value (a reference definition that reads from the back), or its old value if never edited |
| `FormFields.UneditedFieldStaysEmpty` | src/components/sections/InteractiveContactForm.tsx:8-13 | starting from the empty form, a field no edit names is still "" |
| `InteractiveContactForm.StepsAskEveryFieldInOrder` | src/components/sections/InteractiveContactForm.tsx:20-25 | the steps table has four rows asking for name, email, subject and message in that order, and its ids are exactly the four fields |
| `InteractiveContactForm.NextEnabled` | src/components/sections/InteractiveContactForm.tsx:318 | before the last step, the Next button (enabled when the current step's value is truthy) is enabled exactly when clicking it moves the cursor, so the button's test agrees with the early return inside `nextStep` (line 41) |
| `InteractiveContactForm.SubmitEnabled` | src/components/sections/InteractiveContactForm.tsx:335 | on the last step, with every earlier step filled, the Submit button (which tests only the message) is enabled exactly when no send is pending and all four fields are filled |
| `InteractiveContactForm.BackEnabled` | src/components/sections/InteractiveContactForm.tsx:299 | the Back button is enabled exactly when the current step is not the name step, the first |
| `InteractiveContactForm.OnLastStep` | src/components/sections/InteractiveContactForm.tsx:314 | the Submit button replaces Next exactly on the message step |
| `InteractiveContactForm.StepField` | src/components/sections/InteractiveContactForm.tsx:20-25 | each field appears at exactly one step, and the message is collected exactly at the last step |
| `InteractiveContactForm.AfterInput` | src/components/sections/InteractiveContactForm.tsx:31-37 | handleInputChange overwrites only `formData[name]`; the other three fields, the cursor and both flags are unchanged; the invariant holds |
| `InteractiveContactForm.AfterNext` | src/components/sections/InteractiveContactForm.tsx:39-46 | nextStep increments the cursor by exactly 1 iff the current step's value is truthy (the Next button's enabling condition, line 318) and the cursor is not on the last step; otherwise the state is unchanged; the map is never changed; the cursor stays in 0..3 |
| `InteractiveContactForm.AfterPrev` | src/components/sections/InteractiveContactForm.tsx:48-52 | prevStep decrements by exactly 1 iff the cursor is past 0 (the Back button's enabling condition, line 299), with no check on the fields; at 0 it is a no-op |
| `InteractiveContactForm.AfterKeyDown` | src/components/sections/InteractiveContactForm.tsx:54-59 | Enter before the last step is exactly nextStep; any other key, and Enter on the last step, change nothing |
| `InteractiveContactForm.AfterSubmitStart` | src/components/sections/InteractiveContactForm.tsx:60-62 | starting a submit raises only `isSubmitting`, which disables the Submit button (line 335) |
| `InteractiveContactForm.AfterSubmitSettled` | src/components/sections/InteractiveContactForm.tsx:74-96 | on an ok response all four fields become "", the cursor 0 and `submitted` true; on a non-ok response or a rejection the map, cursor and `submitted` are unchanged; `isSubmitting` ends false |
| `InteractiveContactForm.AfterHide` | src/components/sections/InteractiveContactForm.tsx:89 | the timer and the dismiss button set only `submitted := false` |
| `InteractiveContactForm.PrevUndoesNext` | src/components/sections/InteractiveContactForm.tsx:39-52 | Back undoes any Next that moved |
| `InteractiveContactForm.NextUndoesPrev` | src/components/sections/InteractiveContactForm.tsx:39-52 | when every step before the cursor is filled, Next undoes Back |
| `InteractiveContactForm.InputKeepsPrefixFilled` | src/components/sections/InteractiveContactForm.tsx:279-283 | typing into the one rendered input (the current step's) keeps every earlier step filled |
| `InteractiveContactForm.NextKeepsPrefixFilled` | src/components/sections/InteractiveContactForm.tsx:39-46 | Next only passes a filled step, so every step before the cursor stays filled |
| `InteractiveContactForm.FailedSubmitRestores` | src/components/sections/InteractiveContactForm.tsx:60-97 | start then failed settle gives back exactly the state from before Submit was pressed |
| `InteractiveContactForm.SucceededSubmitThenHideIsInitial` | src/components/sections/InteractiveContactForm.tsx:78-89 | a successful submit followed by hiding the panel is the initial state |
| `InteractiveContactForm.NonEmptyValueLetsNextAdvance` | src/components/sections/InteractiveContactForm.tsx:39-46 | on any step before the last, typing any non-empty value, a single space included, lets Next advance by one: the emptiness test `!formData[…]` (line 41, `Truthy`) is JavaScript string truthiness, with no trimming |
| `InteractiveContactForm.EmptySubjectBlocksNext` | src/components/sections/InteractiveContactForm.tsx:39-46 | an empty subject blocks Next like any other step |
| `InteractiveContactForm.Component.constructor` | src/components/sections/InteractiveContactForm.tsx:7-15 | the component starts at step 0 with an empty map and both flags false |
| `InteractiveContactForm.Component.HandleInputChange` | src/components/sections/InteractiveContactForm.tsx:31-37 | performs AfterInput on the fields and keeps Valid |
| `InteractiveContactForm.Component.NextStep` | src/components/sections/InteractiveContactForm.tsx:39-46 | performs AfterNext on the fields and keeps Valid |
| `InteractiveContactForm.Component.PrevStep` | src/components/sections/InteractiveContactForm.tsx:48-52 | performs AfterPrev on the fields and keeps Valid |
| `InteractiveContactForm.Component.HandleKeyDown` | src/components/sections/InteractiveContactForm.tsx:54-59 | performs AfterKeyDown by calling NextStep, and keeps Valid |
| `InteractiveContactForm.Component.StartSubmit` | src/components/sections/InteractiveContactForm.tsx:60-72 | callable only while Submit is enabled (not submitting, message truthy); raises `isSubmitting` and returns the map it posts |
| `InteractiveContactForm.Component.SettleSubmit` | src/components/sections/InteractiveContactForm.tsx:74-96 | performs AfterSubmitSettled on the fields when the pending call settles |
| `InteractiveContactForm.Component.HandleSubmit` | src/components/sections/InteractiveContactForm.tsx:60-97 | posts the map as it was; on success the map is empty, the cursor 0 and `submitted` true; on failure the whole state equals the state before the call; `isSubmitting` ends false |
| `InteractiveContactForm.Component.Dismiss` | src/components/sections/InteractiveContactForm.tsx:245 | sets only `submitted := false` |
| `InteractiveContactForm.Component.TimerFired` | src/components/sections/InteractiveContactForm.tsx:89 | sets only `submitted := false` |
| `InteractiveContactFormSession.Dispatch` | src/components/sections/InteractiveContactForm.tsx:221-351 | routing one event to the handler of a rendered, enabled control keeps the session invariant (cursor in range, earlier steps filled, no success panel beside a pending send, one send in flight exactly while `isSubmitting`, every posted body complete) and posts at most one body |
| `InteractiveContactFormSession.Run` | src/components/sections/InteractiveContactForm.tsx:221-351 | any sequence of events keeps the session invariant, never has more than one send in flight, and only appends to the posted bodies |
| `InteractiveContactFormSession.StartIsValid` | src/components/sections/InteractiveContactForm.tsx:7-15 | the initial state satisfies the session invariant |
| `InteractiveContactFormSession.ReachableSessionsAreSound` | src/components/sections/InteractiveContactForm.tsx:314-351 | from a fresh component, after any events, the cursor is in 0..3, at most one send is in flight, and every posted body has all four fields non-empty |
| `InteractiveContactFormSession.SubmitWhilePendingIsIgnored` | src/components/sections/InteractiveContactForm.tsx:333-335 | a Submit click while a send is pending changes nothing and posts nothing |
| `ContactForm.BannerShown` | src/components/sections/ContactForm.tsx:250 | the status banner is hidden for the cleared status `{}`, shown for the success status, and shown only with a non-empty message |
| `ContactForm.FailureMessage` | src/components/sections/ContactForm.tsx:87-94 | the failure text is the `Error`'s own message, or the fixed non-empty fallback text for any other thrown value |
| `ContactForm.AfterChange` | src/components/sections/ContactForm.tsx:32-40 | handleChange overwrites only `formData[name]`; everything else is unchanged |
| `ContactForm.AfterFocus` | src/components/sections/ContactForm.tsx:42-44 | handleFocus makes `f` the one focused field and changes nothing else |
| `ContactForm.AfterBlur` | src/components/sections/ContactForm.tsx:46-48 | handleBlur leaves no field focused and changes nothing else |
| `ContactForm.AfterSubmitStart` | src/components/sections/ContactForm.tsx:49-52 | starting a submit sets `isSubmitting` (disabling the button, line 446) and clears `submitStatus` to `{}`, which hides the banner; nothing else changes |
| `ContactForm.AfterSubmitSettled` | src/components/sections/ContactForm.tsx:54-97 | on success the status is `{success: true, message: "Your message has been sent successfully!"}`, all fields "" and `submitted` true; on a throw the status is exactly `{success: false, message: FailureMessage(e)}`, and the map and `submitted` are unchanged; the button ends enabled |
| `ContactForm.AfterHide` | src/components/sections/ContactForm.tsx:85 | the timer and the dismiss button set only `submitted := false` |
| `ContactForm.FocusRaisesOnlyItsLabel` | src/components/sections/ContactForm.tsx:282-288 | after focusing `f`, a label is raised iff it is `f`'s or its field is non-empty (the label test at line 285, focused or filled, is `LabelRaised`) |
| `ContactForm.BlurLeavesFilledLabelsRaised` | src/components/sections/ContactForm.tsx:282-299 | after a blur, a label is raised iff its field is non-empty |
| `ContactForm.TypingKeepsFocusedLabelRaised` | src/components/sections/ContactForm.tsx:282-298 | the focused field's label stays raised whatever is typed, even "" |
| `ContactForm.AtMostOneEmptyLabelRaised` | src/components/sections/ContactForm.tsx:327 | focus raises at most one label: two raised labels over empty fields are the same field |
| `ContactForm.FailedSubmitKeepsForm` | src/components/sections/ContactForm.tsx:87-97 | a failed send keeps the map and `submitted`, and the banner (line 250) shows iff the thrown value is not an `Error` or its message is non-empty |
| `ContactForm.SuccessLowersUnfocusedLabels` | src/components/sections/ContactForm.tsx:71-84 | after a success every unfocused label is lowered |
| `ContactForm.Component.constructor` | src/components/sections/ContactForm.tsx:7-20 | the component starts with an empty map, no focus, both flags false and status `{}` |
| `ContactForm.Component.HandleChange` | src/components/sections/ContactForm.tsx:32-40 | performs AfterChange on the fields and keeps Valid |
| `ContactForm.Component.HandleFocus` | src/components/sections/ContactForm.tsx:42-44 | performs AfterFocus on the fields |
| `ContactForm.Component.HandleBlur` | src/components/sections/ContactForm.tsx:46-48 | performs AfterBlur on the fields |
| `ContactForm.Component.StartSubmit` | src/components/sections/ContactForm.tsx:49-52 | callable only while the button is enabled; performs AfterSubmitStart |
| `ContactForm.Component.SettleSubmit` | src/components/sections/ContactForm.tsx:54-97 | performs AfterSubmitSettled on the fields when the pending call settles |
| `ContactForm.Component.HandleSubmit` | src/components/sections/ContactForm.tsx:49-97 | on success: success status, empty map, `submitted`; on a throw: failure status with FailureMessage, map and `submitted` as before; `isSubmitting` ends false and focus is untouched |
| `ContactForm.Component.Dismiss` | src/components/sections/ContactForm.tsx:235 | sets only `submitted := false` |
| `ContactForm.Component.TimerFired` | src/components/sections/ContactForm.tsx:85 | sets only `submitted := false` |
| `ContactFormSession.RequiredFilled` | src/components/sections/ContactForm.tsx:300-425 | the browser lets the form submit exactly when every field but the subject is non-empty: the `required` attributes at lines 300 (name), 342 (email) and 425 (message); the subject input (lines 376-386) has none |
| `ContactFormSession.Dispatch` | src/components/sections/ContactForm.tsx:208-451 | routing one event to a rendered, enabled control keeps the session invariant (four keys, one send in flight exactly while `isSubmitting`, status `{}` while pending, success panel only with the success status and never beside a pending send) |
| `ContactFormSession.Run` | src/components/sections/ContactForm.tsx:208-451 | any sequence of events keeps that invariant and never has more than one send in flight |
| `ContactFormSession.ReachableSessionsAreSound` | src/components/sections/ContactForm.tsx:444-451 | from a fresh component, after any events: at most one send in flight, the submit button (`disabled={isSubmitting}` at line 446, `SubmitDisabled`) disabled exactly while one is, and no success panel beside a pending send |
| `ContactFormSession.SubmitWhilePendingIsIgnored` | src/components/sections/ContactForm.tsx:444-446 | a Submit click while a send is pending changes nothing |

## Left out

- Rendering, styling, SVG icons and framer-motion variants and animation controls: presentation only. The model keeps only what decides which controls exist and are enabled.
- The `fetch('/api/contact')` transport and its JSON encoding, and the simulated 1500 ms delay in ContactForm. Each is an injected outcome. As written, that delay never rejects, so the catch branch of ContactForm is reachable only through the injected `Threw` outcome.
- The exit animation of `AnimatePresence mode="wait"` keyed on `activeStep` (InteractiveContactForm.tsx:253-255). While the old step's input fades out it is briefly still mounted. The session model assumes change events reach only the current step's input.
- The markup of ContactForm.tsx closes a `</form>` at line 472 that is never opened: the `motion.form` already closes at line 469, inside the `motion.div` opened at line 201. The model follows the component's evident structure; the stray tag lies in markup outside the modelled handlers.
- `console.error` logging in the wizard's catch block: output only.
- Real time. The 5000 ms timer is an event allowed at any moment, including long after the success it was armed for.
- The progress text and bar, `((activeStep + 1) / steps.length * 100)`: floating-point formatting.
- React's state batching and stale closures. Each handler is one atomic transition, and the awaited call is a separate "outcome arrives" transition.
- The unused `activeStep` state of ContactForm, and the `useInView`/`useEffect` animation triggers.
- The browser's email-format check on `type="email"` inputs. The session model treats any non-empty email as valid when deciding whether the single-page form may submit.
- The change handlers take the field name from `e.target.name`, a string. The model types it as `Field`, because every input's `name` is one of the four ids.
- Navbar, Footer, Hero, Services, Testimonials, the work gallery and the page layout: static content or routing, with no logic to model.
