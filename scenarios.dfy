/** Runs of the page from load, through the handlers and the event loop, each
    returning what a user would then observe. */
module Scenarios {
  import opened Validators
  import opened Feedback
  import opened Timers
  import opened Contact

  /** A page as loaded, with the three values typed in, each `input` event
      validating its own field. */
  method Typed(n: string, e: string, m: string) returns (page: ContactPage)
    ensures fresh(page) && page.Valid()
    ensures page.name == Show(Field(n, false, ""), NameVerdict(n))
    ensures page.email == Show(Field(e, false, ""), EmailVerdict(e))
    ensures page.message == Show(Field(m, false, ""), MessageVerdict(m))
    ensures page.feedback == Empty && !page.displayed && !page.visible
    ensures page.hideTimeout == None && page.timers == [] && page.nextId == 1 && page.now == 0
  {
    page := new ContactPage();
    var _ := page.Edit(NameField, n);
    var _ := page.Edit(EmailField, e);
    var _ := page.Edit(MessageField, m);
  }

  /** Typing a valid name, an address without a dot in its domain and a
      long enough message, then submitting: the submit is rejected, only the
      address is flagged, and the summary is shown without the banner. */
  method RejectedSubmit() returns (accepted: bool, errors: (string, string, string), shown: Region, banner: bool)
    ensures !accepted
    ensures errors == ("", EmailInvalid, "")
    ensures shown == Summary && !banner
  {
    SampleNamePasses();
    NoDotAddressRejected();
    SampleMessagePasses();
    var page := Typed("Al", "al@example", "Hi there, how are you?");
    assert page.name == Field("Al", false, "");
    assert page.email == Field("al@example", true, EmailInvalid);
    assert page.message == Field("Hi there, how are you?", false, "");
    accepted := page.Submit();
    errors := (page.name.error, page.email.error, page.message.error);
    shown := page.feedback;
    banner := page.displayed;
  }

  /** Values every validator passes, typed in and submitted from a fresh
      page. */
  method Submitted(n: string, e: string, m: string) returns (page: ContactPage, accepted: bool)
    requires NameVerdict(n) == Pass && EmailVerdict(e) == Pass && MessageVerdict(m) == Pass
    ensures accepted
    ensures fresh(page) && page.Valid() && page.now == 0
    ensures page.name == Blank && page.email == Blank && page.message == Blank
    ensures page.feedback == Success && page.displayed && page.visible
    ensures page.timers == [Timer(1, 10, ResetCleanup), Timer(2, 6000, ClearFeedback), Timer(3, 4000, AutoHide)]
  {
    page := Typed(n, e, m);
    accepted := page.Submit();
    assert accepted && page.AcceptedFrom([], None, 1);
    ghost var added := [Timer(1, 10, ResetCleanup), Timer(2, 6000, ClearFeedback), Timer(3, 4000, AutoHide)];
    assert page.timers == CancelPending([], None) + added;
    assert CancelPending([], None) + added == added;
  }

  /** Submitting valid values: the fields are emptied, the success block and
      the banner appear, and 10 later the reset listener's clean-up empties
      the region, long before the 6000 removal is due. */
  method AcceptedSubmit() returns (accepted: bool, values: (string, string, string), shown: Region,
                                   banner: bool, fired: Timer, later: Region, clearStillPending: bool)
    ensures accepted
    ensures values == ("", "", "") && shown == Success && banner
    ensures fired.action == ResetCleanup && fired.due == 10
    ensures later == Empty && clearStillPending
  {
    SampleNamePasses();
    SampleEmailPasses();
    SampleMessagePasses();
    var page;
    page, accepted := Submitted("Al", "al@example.com", "Hi there, how are you?");
    values := (page.name.value, page.email.value, page.message.value);
    shown := page.feedback;
    banner := page.displayed && page.visible;
    fired := page.FireNext();
    later := page.feedback;
    clearStillPending := Timer(2, 6000, ClearFeedback) in page.timers;
  }

  /** The close button, then a new success within the 260 fade-out: the
      fade-out's `display = 'none'` is never cancelled, so it fires after the
      banner was shown again and leaves it hidden at full opacity while its
      next auto-hide is still pending. */
  method ShowDuringFadeOut() returns (fired: Timer, displayed: bool, visible: bool, hidePending: bool)
    ensures fired.action == HideDisplay && fired.due == 260
    ensures !displayed && visible && hidePending
  {
    var page := new ContactPage();
    page.ShowBanner();
    assert page.timers == [Timer(1, 4000, AutoHide)];
    CancelOnly(Timer(1, 4000, AutoHide));
    page.Close();
    assert page.timers == [Timer(2, 260, HideDisplay)];
    page.Wait(100);
    page.ShowBanner();
    assert page.timers == [Timer(2, 260, HideDisplay), Timer(3, 4100, AutoHide)];
    fired := page.FireNext();
    displayed, visible := page.displayed, page.visible;
    hidePending := page.hideTimeout.Some?
                   && exists t :: t in page.timers && t.id == page.hideTimeout.value && t.action == AutoHide;
  }

  /** Two triggers 1000 apart: the second restarts the auto-hide instead of
      adding another, so exactly one hide is pending, due 4000 after the
      second trigger. */
  method ShowTwice() returns (hides: seq<Timer>)
    ensures |hides| == 1 && hides[0].action == AutoHide && hides[0].due == 5000
  {
    var page := new ContactPage();
    page.ShowBanner();
    assert page.timers == [Timer(1, 4000, AutoHide)];
    CancelOnly(Timer(1, 4000, AutoHide));
    page.Wait(1000);
    page.ShowBanner();
    hides := page.timers;
  }
}
