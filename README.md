# Contact form: validators, submit controller and notification banner

This project models the client-side logic of a one-page contact form
(`script.js`) and proves properties of that model in Dafny.

- **Validators.** `validateName`, `validateEmail` and `validateMessage` trim
  the input value and run an ordered chain of checks. Each writes the field's
  error state through `setError`/`clearError`. Every decision is a pure
  verdict function (`Validators`), and the three handlers are methods of the
  page object that apply it. The e-mail pattern `^[^\s@]+@[^\s@]+\.[^\s@]+$`
  is read twice (`Email`). `PatternMatches` reads it literally: some choice
  of `@` and `.` positions splits the string. `EmailShape` computes it: split
  at the first `@`, then look for an inner dot. A lemma proves the two equal.
  White space (`Text`) is the ECMAScript WhiteSpace and LineTerminator set,
  which `trim` and `\s` share.
- **Submit and reset.** `ContactPage` holds the three fields, the feedback
  region, the banner state and the list of pending `setTimeout` callbacks,
  with an integer clock. `Submit` runs all three validators and accepts iff
  all pass. On acceptance:
  - the success block is rendered;
  - `form.reset()` dispatches `reset` synchronously, so the reset listener
    schedules its clean-up at +10;
  - the errors are cleared;
  - the removal of the block is scheduled at +6000.

  On rejection the values stay and the summary is shown.
- **Banner.** `showBanner` cancels the pending hide, displays the banner and
  schedules a hide at +4000. `hideBanner` cancels the pending hide, fades the
  banner and schedules `display = 'none'` at +260. Nothing ever cancels that
  callback. The mutation observer is modelled as `Observe`, run after each
  handler that writes the feedback region. It shows the banner iff the region
  holds the `success-box` element or its text contains "Message received",
  up to case.
- **Event loop.** `FireNext` fires the earliest pending callback. Among
  equal deadlines it fires the one scheduled first.

Two behaviours of the code are easy to miss, and the model keeps both:

- The reset listener's clean-up at +10 also empties the feedback region. So
  after an accepted submit the success block disappears 10 ticks later, not
  6000 (`Scenarios.AcceptedSubmit`). A description of the form as keeping the
  block for six seconds disagrees with the code; the model follows the code.
- A `showBanner` during the 260-tick fade-out is followed by the fade-out's
  `display = 'none'`. The banner then stays hidden, at full opacity, while its
  next auto-hide is pending (`Scenarios.ShowDuringFadeOut`).

Modules: `Text`, `Email`, `Validators`, `Feedback`, `Timers`, `Contact`
(the page class), `Scenarios` (runs from page load).

## Model

| member | source | states |
|---|---|---|
| Text.Trim | script.js:30 | `trim` returns a string with no leading or trailing white space, no longer than the input, empty iff the input is all white space |
| Text.TrimUnique | script.js:30 | for any split into white space, a trimmed middle and white space, `trim` returns the middle |
| Text.TrimKeepsTrimmed | script.js:30 | a string without surrounding white space is its own trim |
| Text.TrimIdempotent | script.js:30 | trimming twice equals trimming once |
| Text.TrimSplits | script.js:30 | the input is leading white space, then the trim, then trailing white space |
| Email.PatternMatches | script.js:14 | the regex read literally: some choice of an `@` position and a later `.` position splits the string into three non-empty `[^\s@]` runs around them |
| Email.EmailShape | script.js:14 | the computable reading: split at the first `@`; the local part is non-empty, neither side holds white space or `@`, and the domain has a dot with a character on each side |
| Email.IndexOf | script.js:14 | the first position of a character at or after `from` (or the length when it is absent) |
| Email.ShapeIffPattern | script.js:14 | the regex matches iff the string is a non-empty `[^\s@]` run, `@`, then a domain without spaces or `@` with a dot that has a character before and after it |
| Email.NoDotNoMatch | script.js:14 | a string without any dot never matches the pattern |
| Validators.NameVerdict | script.js:29-35 | fails with "Name is too short" iff the trimmed length is 1; passes iff it is at least 2; every failure carries a non-empty message |
| Validators.EmailVerdict | script.js:36-42 | fails only with "Email is required" or "Enter a valid email"; every failure carries a non-empty message |
| Validators.MessageVerdict | script.js:43-49 | fails with "Write at least 10 characters" iff the trimmed length is 1 to 9; passes iff it is at least 10 |
| Validators.RequiredIffBlank | script.js:29-49 | each validator reports "… is required" iff the value is empty or all white space |
| Validators.EmailVerdictIsPattern | script.js:36-42 | the e-mail check passes iff the regex matches the trimmed value; it reports "Enter a valid email" iff the value is not blank and the regex does not match |
| Validators.NoDotAddressRejected | script.js:39 | `al@example` is rejected as invalid, not as missing |
| Validators.SampleNamePasses | script.js:29-35 | "Al" passes the name check |
| Validators.SampleEmailPasses | script.js:36-42 | "al@example.com" passes the e-mail check |
| Validators.SampleMessagePasses | script.js:43-49 | a 22-character message passes the message check |
| Validators.SetError | script.js:17-21 | `setError` keeps the value, raises the flag and sets the error text to exactly the given non-empty message |
| Validators.ClearError | script.js:22-26 | `clearError` keeps the value, lowers the flag and empties the error text |
| Validators.Show | script.js:17-26 | after a validator runs, the flag is raised iff it failed, the error text is its message, and the value is untouched |
| Validators.ShowForgetsPrior | script.js:17-26 | the error state a validator writes does not depend on the state it found |
| Validators.ValidateTwice | script.js:29-49 | running any validator a second time on the state the first run left changes nothing |
| Feedback.Upper | script.js:177 | the `/i` fold changes exactly the letters `a` to `z`, mapping each onto its capital `A` to `Z` |
| Feedback.ContainsIgnoringCase | script.js:177 | `/p/i.test(t)`: some position of `t` starts a run that equals `p` letter for letter after folding |
| Feedback.Triggers | script.js:177 | the observer's test: the region holds a block that has the `success-box` class or whose text contains "Message received" up to case |
| Feedback.FoldAlike | script.js:177 | for every pattern, two texts that fold alike position by position either both contain it up to case or neither does |
| Feedback.TriggersIgnoreCase | script.js:177 | two blocks whose texts differ only in the case of letters trigger the banner alike |
| Feedback.MissingLastLetter | script.js:177 | text that lacks the phrase's last letter, up to case, at every position where a match could end does not match |
| Feedback.SummaryNeverTriggers | script.js:177 | neither the rejected-submit summary (line 86) nor an empty region triggers the banner |
| Feedback.TextAloneTriggers | script.js:177 | a block without the success class whose text is "MESSAGE RECEIVED" triggers the banner |
| Timers.Cancel | script.js:153 | `clearTimeout(id)` as a filter of the pending list that keeps the order of the remaining callbacks (membership stated by `Timers.CancelMembers`) |
| Timers.CancelPending | script.js:153 | `if (hideTimeout) clearTimeout(hideTimeout)`: clears the handle's timer when a handle is held, and leaves the list alone otherwise |
| Timers.CancelMembers | script.js:153 | `clearTimeout` removes exactly the timers with that id and keeps all others |
| Timers.CancelAbsent | script.js:166 | clearing an id that is no longer pending (the hide that just fired) changes nothing |
| Timers.CancelDistinct | script.js:153 | clearing keeps timer ids distinct |
| Timers.CancelPendingKeeps | script.js:153 | `if (hideTimeout) clearTimeout(hideTimeout)` keeps the queue well formed and leaves no auto-hide pending |
| Timers.CancelAppend | script.js:153 | clearing an id commutes with appending timers that carry other ids |
| Timers.CancelPendingAppend | script.js:153 | clearing the handle after the submit's two timers are queued equals clearing it before |
| Timers.Earliest | script.js:163 | the index of the next callback: no pending deadline is earlier, and every earlier-scheduled one is strictly later |
| Timers.AppendFresh | script.js:163 | a new `setTimeout` keeps ids distinct and below the next id, and deadlines not in the past |
| Timers.FireKeepsQueue | script.js:163 | firing the earliest callback keeps the queue well formed at the new time |
| Timers.FireKeepsHides | script.js:163-166 | firing a callback that is not a hide keeps the handle tracking the single pending hide; firing the hide leaves none pending |
| Timers.AtMostOneHide | script.js:151-170 | at most one auto-hide is pending at any time |
| Contact.ContactPage.Schedule | script.js:163 | `setTimeout` returns the next id, appends one callback due `delay` after now, and keeps the queue well formed |
| Contact.ContactPage.constructor | script.js:116-151 | at load the fields are empty, the banner is hidden, no hide handle is held and no callback is pending |
| Contact.ContactPage.ValidateName | script.js:29-35 | returns true iff the name verdict passes and writes that verdict into the name field only |
| Contact.ContactPage.ValidateEmail | script.js:36-42 | returns true iff the e-mail verdict passes and writes it into the e-mail field only |
| Contact.ContactPage.ValidateMessage | script.js:43-49 | returns true iff the message verdict passes and writes it into the message field only |
| Contact.ContactPage.Edit | script.js:52-54 | an `input` event revalidates only the edited field from its new value; the other two fields are unchanged |
| Contact.ContactPage.ValidateAll | script.js:60-62 | all three validators run whatever the earlier ones returned; every field then shows its own verdict, and the result is true iff all three pass |
| Contact.ContactPage.Submit | script.js:57-90 | accepts iff all three verdicts pass. If accepted: empty fields without errors, the success block, the banner shown, and +10 clean-up, +6000 removal and +4000 hide queued. If rejected: values kept, each field showing its verdict, the summary, and banner and timers untouched |
| Contact.ContactPage.Accept | script.js:64-83 | the accepted branch followed by the observer, which the success block triggers, leaves exactly the accepted state, with the previous hide cancelled |
| Contact.ContactPage.RenderSuccess | script.js:66-83 | the success block, blank fields, and the reset clean-up (+10) and block removal (+6000) appended in that order |
| Contact.ContactPage.Reject | script.js:84-86 | the summary is shown and the observer leaves banner and timers as they were |
| Contact.ContactPage.Reset | script.js:93-100 | `form.reset()` empties the values, keeps the error state, and queues the listener's clean-up at +10 |
| Contact.ContactPage.ResetCleanupFires | script.js:94-99 | the clean-up clears every error and the feedback region, and the banner is untouched |
| Contact.ContactPage.ClearFeedbackFires | script.js:83 | the deferred removal empties the feedback region, and the banner is untouched |
| Contact.ContactPage.ShowBanner | script.js:152-164 | the pending hide is cancelled, the banner is displayed at full opacity, and one new hide at +4000 becomes the handle |
| Contact.ContactPage.HideBanner | script.js:165-170 | the pending hide is cancelled, opacity drops, the handle is emptied, and `display = 'none'` is queued at +260 |
| Contact.ContactPage.Close | script.js:143-145 | the close button has exactly the effect of `hideBanner` |
| Contact.ContactPage.Observe | script.js:173-183 | the banner is shown iff the region triggers the test; otherwise banner and timers are unchanged |
| Contact.ContactPage.AutoHideFires | script.js:163 | the fired hide runs `hideBanner`; clearing its own spent handle removes nothing, and the fade-out is queued |
| Contact.ContactPage.HideDisplayFires | script.js:169 | the fade-out callback sets `display` to none whatever happened since it was queued |
| Contact.ContactPage.Run | script.js:83-169 | each kind of callback has its handler's effect and changes nothing else |
| Contact.ContactPage.FireNext | script.js:163-169 | the earliest callback is removed, the clock moves to its deadline, and its effect is applied |
| Scenarios.Typed | script.js:52-54 | three `input` events on a fresh page leave each field showing its own verdict |
| Scenarios.RejectedSubmit | script.js:84-86 | a submit with `al@example` is rejected, only the e-mail field is flagged, and the summary shows without the banner |
| Scenarios.Submitted | script.js:64-83 | a valid submit on a fresh page is accepted and queues the clean-up at 10, the removal at 6000 and the hide at 4000 |
| Scenarios.AcceptedSubmit | script.js:77-99 | after a valid submit the first callback is the reset clean-up at 10; it empties the region while the 6000 removal is still pending |
| Scenarios.ShowDuringFadeOut | script.js:165-170 | closing the banner and re-showing it within 260 ends with the banner hidden at full opacity while an auto-hide is pending |
| Scenarios.ShowTwice | script.js:152-164 | two shows 1000 apart leave exactly one auto-hide, due 4000 after the second |

## Left out

- Element lookups, `createElement`, `appendChild` and listener registration.
  The elements are fields of the page object and the handlers are methods
  called directly. `preventDefault` has no counterpart.
- Inline styles, the close button's styling and the success block's markup
  and SVG. The success block is reduced to its `success-box` class and its
  text. The banner's own text is not modelled.
- Banner opacity is one flag. `requestAnimationFrame` is taken to set opacity
  to 1 at once, and transforms and transitions are not modelled. The unset
  opacity at load is modelled as 0, which makes no difference while
  `display` is `none`.
- The `shake` class and its 600-tick removal on a rejected submit. The timer
  it schedules is left out, so timer ids in the model skip no value there.
- The mechanics of `MutationObserver`: mutation records, and whether a
  mutation fires at all. The observer runs once after each handler that
  writes the region, before any timer, and evaluates the test on the final
  content. When the test fails it changes nothing, so an extra run does not
  matter.
- `form.reset()` restores default values, which are taken to be empty.
- Real time and the browser's timer queue. The clock is an integer and
  callbacks run only through `FireNext`. Timer ids start at 1, so the
  truthiness test on `hideTimeout` is modelled as "a handle is held".
- Characters outside the Basic Multilingual Plane. A Dafny `char` is one
  Unicode scalar value, and a JavaScript string counts two UTF-16 code units
  for such a character. The model covers only strings without them, where one
  `char` is one code unit. For example, `"\u{1F600}"` has length 2 in
  JavaScript and passes the name check, but the model reads it as length 1.
- `/i` case folding is limited to ASCII `a` to `z`. This is exact for an
  ASCII pattern without the `u` flag.
- Validators.EmailVerdict: its own contract only lists the two failure
  messages. When it passes or fails is stated by
  `Validators.RequiredIffBlank` and `Validators.EmailVerdictIsPattern`.
