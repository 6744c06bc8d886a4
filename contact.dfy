/** The contact page's handlers: live validation, submit, reset, and the
    notification banner, over one object holding the page's mutable state. */
module Contact {
  import opened Text
  import opened Validators
  import opened Feedback
  import opened Timers

  datatype FieldId = NameField | EmailField | MessageField

  class ContactPage {
    var name: Field
    var email: Field
    var message: Field
    /** The `formFeedback` region. */
    var feedback: Region
    /** The banner's `style.display` is `flex` (otherwise `none`). */
    var displayed: bool
    /** The banner's `style.opacity` is `1` (otherwise `0`). */
    var visible: bool
    /** The module-level `hideTimeout` handle. */
    var hideTimeout: Option<nat>
    /** Pending `setTimeout` callbacks, in scheduling order. */
    var timers: seq<Timer>
    /** The id the next `setTimeout` returns. */
    var nextId: nat
    /** The current time. */
    var now: int

    ghost function Form(): (Field, Field, Field)
      reads this
    {
      (name, email, message)
    }

    ghost function Banner(): (bool, bool, Option<nat>)
      reads this
    {
      (displayed, visible, hideTimeout)
    }

    /** Every field's error flag matches its error text. */
    ghost predicate FieldsValid()
      reads this`name, this`email, this`message
    {
      Consistent(name) && Consistent(email) && Consistent(message)
    }

    /** The queue is well formed and every pending hide is the one
        `hideTimeout` names. */
    ghost predicate QueueValid()
      reads this`timers, this`nextId, this`now, this`hideTimeout
    {
      QueueOk(timers, nextId, now) && HidesNamed(timers, hideTimeout)
    }

    /** Holds between events, except that the `hideTimeout` handle may name
        a timer that has just fired. */
    ghost predicate Steady()
      reads this
    {
      FieldsValid() && QueueValid()
    }

    /** Holds between events: `Steady`, and the timer `hideTimeout` names is
        pending. */
    ghost predicate Valid()
      reads this
    {
      Steady() && Tracked()
    }

    ghost predicate Tracked()
      reads this`timers, this`hideTimeout
    {
      HideTracked(timers, hideTimeout)
    }

    /** The state an accepted submit leaves, from the queue `q`, the hide
        handle `h` and the next id `n` it found: empty fields without errors,
        the success block, the banner shown, and a queue where the pending
        hide is cancelled and the reset clean-up (+10), the removal of the
        block (+6000) and the new hide (+4000) are appended in that order. */
    ghost predicate AcceptedFrom(q: seq<Timer>, h: Option<nat>, n: nat)
      reads this
    {
      name == Blank && email == Blank && message == Blank
      && feedback == Success && displayed && visible
      && nextId == n + 3 && hideTimeout == Some(n + 2)
      && timers == CancelPending(q, h)
                   + [Timer(n, now + 10, ResetCleanup), Timer(n + 1, now + 6000, ClearFeedback),
                      Timer(n + 2, now + 4000, AutoHide)]
    }

    /** The page as loaded: empty fields, no feedback, banner hidden. */
    constructor ()
      ensures Valid()
      ensures name == Blank && email == Blank && message == Blank && feedback == Empty
      ensures !displayed && !visible && hideTimeout == None && timers == [] && nextId == 1 && now == 0
    {
      name, email, message := Blank, Blank, Blank;
      feedback := Empty;
      displayed, visible, hideTimeout := false, false, None;
      timers, nextId, now := [], 1, 0;
    }

    /** `setTimeout(action, delay)`. */
    method Schedule(delay: nat, action: Action) returns (id: nat)
      requires QueueOk(timers, nextId, now)
      modifies this`timers, this`nextId
      ensures QueueOk(timers, nextId, now)
      ensures id == old(nextId) && nextId == id + 1
      ensures timers == old(timers) + [Timer(id, now + delay, action)]
    {
      id := nextId;
      AppendFresh(timers, nextId, now, delay, action);
      timers := timers + [Timer(id, now + delay, action)];
      nextId := nextId + 1;
    }

    /** `validateName`: decides the trimmed value and writes the error state. */
    method ValidateName() returns (ok: bool)
      modifies this`name
      ensures ok <==> NameVerdict(old(name.value)) == Pass
      ensures name == Show(old(name), NameVerdict(old(name.value)))
    {
      var v := Trim(name.value);
      if v == [] { name := SetError(name, NameRequired); return false; }
      if |v| < 2 { name := SetError(name, NameTooShort); return false; }
      name := ClearError(name);
      return true;
    }

    /** `validateEmail`. */
    method ValidateEmail() returns (ok: bool)
      modifies this`email
      ensures ok <==> EmailVerdict(old(email.value)) == Pass
      ensures email == Show(old(email), EmailVerdict(old(email.value)))
    {
      var v := Trim(email.value);
      if v == [] { email := SetError(email, EmailRequired); return false; }
      if !Email.EmailShape(v) { email := SetError(email, EmailInvalid); return false; }
      email := ClearError(email);
      return true;
    }

    /** `validateMessage`. */
    method ValidateMessage() returns (ok: bool)
      modifies this`message
      ensures ok <==> MessageVerdict(old(message.value)) == Pass
      ensures message == Show(old(message), MessageVerdict(old(message.value)))
    {
      var v := Trim(message.value);
      if v == [] { message := SetError(message, MessageRequired); return false; }
      if |v| < 10 { message := SetError(message, MessageTooShort); return false; }
      message := ClearError(message);
      return true;
    }

    /** An `input` event: the user changes one field, and that field alone is
        validated again. */
    method Edit(which: FieldId, v: string) returns (ok: bool)
      requires Valid()
      modifies this`name, this`email, this`message
      ensures Valid()
      ensures which == NameField ==>
        ok == (NameVerdict(v) == Pass) && email == old(email) && message == old(message)
        && name == Show(old(name).(value := v), NameVerdict(v))
      ensures which == EmailField ==>
        ok == (EmailVerdict(v) == Pass) && name == old(name) && message == old(message)
        && email == Show(old(email).(value := v), EmailVerdict(v))
      ensures which == MessageField ==>
        ok == (MessageVerdict(v) == Pass) && name == old(name) && email == old(email)
        && message == Show(old(message).(value := v), MessageVerdict(v))
    {
      match which
      case NameField =>
        name := name.(value := v);
        ok := ValidateName();
      case EmailField =>
        email := email.(value := v);
        ok := ValidateEmail();
      case MessageField =>
        message := message.(value := v);
        ok := ValidateMessage();
    }

    /** `showBanner`: cancel the pending hide, show the banner, and schedule
        a fresh hide 4000 later. */
    method ShowBanner()
      requires Valid()
      modifies this`displayed, this`visible, this`hideTimeout, this`timers, this`nextId
      ensures Valid()
      ensures displayed && visible
      ensures hideTimeout == Some(old(nextId)) && nextId == old(nextId) + 1
      ensures timers == CancelPending(old(timers), old(hideTimeout))
                        + [Timer(old(nextId), now + 4000, AutoHide)]
    {
      CancelPendingKeeps(timers, nextId, now, hideTimeout);
      if hideTimeout.Some? {
        timers := Cancel(timers, hideTimeout.value);
        hideTimeout := None;
      }
      displayed := true;
      // The animation frame's `opacity = '1'` is taken to follow at once.
      visible := true;
      var id := Schedule(4000, AutoHide);
      hideTimeout := Some(id);
    }

    /** `hideBanner`: cancel the pending hide, fade out, and schedule the
        `display = 'none'` 260 later; that callback is never cancelled. */
    method HideBanner()
      requires Steady()
      modifies this`visible, this`hideTimeout, this`timers, this`nextId
      ensures Valid()
      ensures !visible && hideTimeout == None && nextId == old(nextId) + 1
      ensures timers == CancelPending(old(timers), old(hideTimeout))
                        + [Timer(old(nextId), now + 260, HideDisplay)]
    {
      CancelPendingKeeps(timers, nextId, now, hideTimeout);
      if hideTimeout.Some? {
        timers := Cancel(timers, hideTimeout.value);
        hideTimeout := None;
      }
      visible := false;
      var _ := Schedule(260, HideDisplay);
    }

    /** The close button. */
    method Close()
      requires Valid()
      modifies this`visible, this`hideTimeout, this`timers, this`nextId
      ensures Valid()
      ensures !visible && hideTimeout == None && nextId == old(nextId) + 1
      ensures timers == CancelPending(old(timers), old(hideTimeout))
                        + [Timer(old(nextId), now + 260, HideDisplay)]
    {
      HideBanner();
    }

    /** The mutation observer, run after a handler has written the feedback
        region: it shows the banner exactly when the region triggers it. */
    method Observe()
      requires Valid()
      modifies this`displayed, this`visible, this`hideTimeout, this`timers, this`nextId
      ensures Valid()
      ensures Triggers(feedback) ==>
        displayed && visible && hideTimeout == Some(old(nextId)) && nextId == old(nextId) + 1
        && timers == CancelPending(old(timers), old(hideTimeout))
                     + [Timer(old(nextId), now + 4000, AutoHide)]
      ensures !Triggers(feedback) ==>
        Banner() == old(Banner()) && timers == old(timers) && nextId == old(nextId)
    {
      if Triggers(feedback) {
        ShowBanner();
      }
    }

    /** `form.reset()` or the reset button: the browser empties the values,
        and the `reset` listener schedules its clean-up 10 later. */
    method Reset()
      requires Valid()
      modifies this`name, this`email, this`message, this`timers, this`nextId
      ensures Valid()
      ensures name == old(name).(value := "") && email == old(email).(value := "")
      ensures message == old(message).(value := "")
      ensures nextId == old(nextId) + 1
      ensures timers == old(timers) + [Timer(old(nextId), now + 10, ResetCleanup)]
    {
      var _ := Schedule(10, ResetCleanup);
      name := name.(value := "");
      email := email.(value := "");
      message := message.(value := "");
    }

    /** The accepted branch of the `submit` listener: render the success
        block, reset the form (whose `reset` listener schedules its clean-up),
        clear every error, and schedule the removal of the block. */
    method RenderSuccess()
      requires Valid()
      modifies this`name, this`email, this`message, this`feedback, this`timers, this`nextId
      ensures Valid()
      ensures name == Blank && email == Blank && message == Blank && feedback == Success
      ensures nextId == old(nextId) + 2
      ensures timers == old(timers) + [Timer(old(nextId), now + 10, ResetCleanup),
                                       Timer(old(nextId) + 1, now + 6000, ClearFeedback)]
    {
      feedback := Success;
      Reset();
      name := ClearError(name);
      email := ClearError(email);
      message := ClearError(message);
      var _ := Schedule(6000, ClearFeedback);
    }

    /** The accepted branch followed by the observer: the success block
        shows the banner, restarting its hide. */
    method Accept()
      requires Valid()
      modifies this
      ensures Valid() && now == old(now)
      ensures AcceptedFrom(old(timers), old(hideTimeout), old(nextId))
    {
      ghost var n, h, t0 := nextId, hideTimeout, timers;
      RenderSuccess();
      assert Triggers(Success);
      Observe();
      CancelPendingAppend(t0, h, Timer(n, now + 10, ResetCleanup), Timer(n + 1, now + 6000, ClearFeedback),
                          Timer(n + 2, now + 4000, AutoHide));
    }

    /** The three validators, all run, in order, whatever the earlier ones
        decided. */
    method ValidateAll() returns (ok: bool)
      requires FieldsValid()
      modifies this`name, this`email, this`message
      ensures FieldsValid()
      ensures ok <==>
        NameVerdict(old(name.value)) == Pass && EmailVerdict(old(email.value)) == Pass
        && MessageVerdict(old(message.value)) == Pass
      ensures name == Show(old(name), NameVerdict(old(name.value)))
      ensures email == Show(old(email), EmailVerdict(old(email.value)))
      ensures message == Show(old(message), MessageVerdict(old(message.value)))
    {
      var okName := ValidateName();
      var okEmail := ValidateEmail();
      var okMsg := ValidateMessage();
      ok := okName && okEmail && okMsg;
    }

    /** The rejected branch followed by the observer: the summary is
        rendered, and the observer leaves the banner alone. */
    method Reject()
      requires Valid()
      modifies this`feedback, this`displayed, this`visible, this`hideTimeout, this`timers, this`nextId
      ensures Valid() && feedback == Summary
      ensures Banner() == old(Banner()) && timers == old(timers) && nextId == old(nextId)
    {
      feedback := Summary;
      SummaryNeverTriggers();
      Observe();
    }

    /** The `submit` listener, followed by the observer it wakes. All three
        validators run; the submit is accepted iff all three pass. */
    method Submit() returns (accepted: bool)
      requires Valid()
      modifies this
      ensures Valid() && now == old(now)
      ensures accepted <==>
        NameVerdict(old(name.value)) == Pass && EmailVerdict(old(email.value)) == Pass
        && MessageVerdict(old(message.value)) == Pass
      ensures accepted ==> AcceptedFrom(old(timers), old(hideTimeout), old(nextId))
      ensures !accepted ==>
        name == Show(old(name), NameVerdict(old(name.value)))
        && email == Show(old(email), EmailVerdict(old(email.value)))
        && message == Show(old(message), MessageVerdict(old(message.value)))
        && feedback == Summary
        && Banner() == old(Banner()) && timers == old(timers) && nextId == old(nextId)
    {
      feedback := Empty;
      accepted := ValidateAll();
      if accepted {
        Accept();
      } else {
        Reject();
      }
    }

    /** Time passes with no callback falling due. */
    method Wait(d: nat)
      requires Valid()
      requires forall t :: t in timers ==> now + d <= t.due
      modifies this`now
      ensures Valid() && now == old(now) + d
    {
      now := now + d;
    }

    /** The event loop takes the next callback off the queue: the earliest
        deadline, first scheduled among equals; the clock moves to it. */
    method Dequeue() returns (fired: Timer)
      requires Valid() && timers != []
      modifies this`timers, this`now
      ensures Steady()
      ensures fired == old(timers)[Earliest(old(timers))] && now == fired.due
      ensures timers == RemoveAt(old(timers), Earliest(old(timers)))
      ensures fired.action != AutoHide ==> Valid()
      ensures fired.action == AutoHide ==>
        hideTimeout == Some(fired.id) && forall t :: t in timers ==> t.action != AutoHide && t.id != fired.id
    {
      var k := Earliest(timers);
      fired := timers[k];
      FireKeepsQueue(timers, nextId, now);
      FireKeepsHides(timers, k, hideTimeout);
      timers := RemoveAt(timers, k);
      now := fired.due;
    }

    /** The reset listener's deferred callback: clear every error and the
        feedback region (on which the observer then finds nothing). */
    method ResetCleanupFires()
      requires Valid()
      modifies this`name, this`email, this`message, this`feedback
      modifies this`displayed, this`visible, this`hideTimeout, this`timers, this`nextId
      ensures Valid()
      ensures Banner() == old(Banner()) && timers == old(timers) && nextId == old(nextId)
      ensures name == ClearError(old(name)) && email == ClearError(old(email))
      ensures message == ClearError(old(message)) && feedback == Empty
    {
      name := ClearError(name);
      email := ClearError(email);
      message := ClearError(message);
      feedback := Empty;
      SummaryNeverTriggers();
      Observe();
    }

    /** The callback scheduled after an accepted submit: empty the feedback
        region (on which the observer then finds nothing). */
    method ClearFeedbackFires()
      requires Valid()
      modifies this`feedback
      modifies this`displayed, this`visible, this`hideTimeout, this`timers, this`nextId
      ensures Valid() && feedback == Empty
      ensures Banner() == old(Banner()) && timers == old(timers) && nextId == old(nextId)
    {
      feedback := Empty;
      SummaryNeverTriggers();
      Observe();
    }

    /** The callback `hideBanner` schedules: `display = 'none'`. */
    method HideDisplayFires()
      requires Valid()
      modifies this`displayed
      ensures Valid() && !displayed
    {
      displayed := false;
    }

    /** The hide timer `showBanner` scheduled: `hideBanner`, while
        `hideTimeout` still names the timer that has just fired, so that
        clearing it is a no-op. */
    method AutoHideFires(id: nat)
      requires Steady() && hideTimeout == Some(id)
      requires forall t :: t in timers ==> t.action != AutoHide && t.id != id
      modifies this`visible, this`hideTimeout, this`timers, this`nextId
      ensures Valid() && !visible && hideTimeout == None && nextId == old(nextId) + 1
      ensures timers == old(timers) + [Timer(old(nextId), now + 260, HideDisplay)]
    {
      CancelAbsent(timers, id);
      HideBanner();
    }

    /** The callback `fired`, just taken off the queue, runs. */
    method Run(fired: Timer)
      requires Steady()
      requires fired.action != AutoHide ==> Valid()
      requires fired.action == AutoHide ==>
        hideTimeout == Some(fired.id) && forall t :: t in timers ==> t.action != AutoHide && t.id != fired.id
      modifies this`name, this`email, this`message, this`feedback
      modifies this`displayed, this`visible, this`hideTimeout, this`timers, this`nextId
      ensures Valid()
      ensures match fired.action
        case ClearFeedback =>
          feedback == Empty && Form() == old(Form()) && Banner() == old(Banner())
          && timers == old(timers) && nextId == old(nextId)
        case ResetCleanup =>
          feedback == Empty && Banner() == old(Banner())
          && name == ClearError(old(name)) && email == ClearError(old(email))
          && message == ClearError(old(message))
          && timers == old(timers) && nextId == old(nextId)
        case AutoHide =>
          feedback == old(feedback) && Form() == old(Form())
          && displayed == old(displayed) && !visible && hideTimeout == None
          && timers == old(timers) + [Timer(old(nextId), now + 260, HideDisplay)]
          && nextId == old(nextId) + 1
        case HideDisplay =>
          feedback == old(feedback) && Form() == old(Form())
          && !displayed && visible == old(visible) && hideTimeout == old(hideTimeout)
          && timers == old(timers) && nextId == old(nextId)
    {
      match fired.action {
        case ClearFeedback =>
          ClearFeedbackFires();
        case ResetCleanup =>
          ResetCleanupFires();
        case AutoHide =>
          AutoHideFires(fired.id);
        case HideDisplay =>
          HideDisplayFires();
      }
    }

    /** The event loop runs the next callback: the earliest deadline, first
        scheduled among equals, at its due time. */
    method FireNext() returns (fired: Timer)
      requires Valid() && timers != []
      modifies this
      ensures Valid()
      ensures fired == old(timers)[Earliest(old(timers))] && now == fired.due
      ensures var rest := RemoveAt(old(timers), Earliest(old(timers)));
        match fired.action
        case ClearFeedback =>
          feedback == Empty && Form() == old(Form()) && Banner() == old(Banner())
          && timers == rest && nextId == old(nextId)
        case ResetCleanup =>
          feedback == Empty && Banner() == old(Banner())
          && name == ClearError(old(name)) && email == ClearError(old(email))
          && message == ClearError(old(message))
          && timers == rest && nextId == old(nextId)
        case AutoHide =>
          feedback == old(feedback) && Form() == old(Form())
          && displayed == old(displayed) && !visible && hideTimeout == None
          && timers == rest + [Timer(old(nextId), now + 260, HideDisplay)]
          && nextId == old(nextId) + 1
        case HideDisplay =>
          feedback == old(feedback) && Form() == old(Form())
          && !displayed && visible == old(visible) && hideTimeout == old(hideTimeout)
          && timers == rest && nextId == old(nextId)
    {
      fired := Dequeue();
      Run(fired);
    }
  }
}
