/** The three field validators of script.js and the error state they write. */
module Validators {
  import opened Text
  import opened Email

  /** Outcome of one validator: pass, or fail with the message it shows. */
  datatype Verdict = Pass | Fail(msg: string)

  const NameRequired := "Name is required"
  const NameTooShort := "Name is too short"
  const EmailRequired := "Email is required"
  const EmailInvalid := "Enter a valid email"
  const MessageRequired := "Message is required"
  const MessageTooShort := "Write at least 10 characters"

  /** The decision of `validateName` on the raw input value. */
  function NameVerdict(value: string): (r: Verdict)
    ensures r == Fail(NameTooShort) <==> |Trim(value)| == 1
    ensures r == Pass <==> |Trim(value)| >= 2
    ensures r.Fail? ==> r.msg != ""
  {
    var v := Trim(value);
    if v == [] then Fail(NameRequired)
    else if |v| < 2 then Fail(NameTooShort)
    else Pass
  }

  /** The decision of `validateEmail`: required first, then the pattern,
      applied to the trimmed value. */
  function EmailVerdict(value: string): (r: Verdict)
    ensures r.Fail? ==> r == Fail(EmailRequired) || r == Fail(EmailInvalid)
    ensures r.Fail? ==> r.msg != ""
  {
    var v := Trim(value);
    if v == [] then Fail(EmailRequired)
    else if !EmailShape(v) then Fail(EmailInvalid)
    else Pass
  }

  /** The decision of `validateMessage`. */
  function MessageVerdict(value: string): (r: Verdict)
    ensures r == Fail(MessageTooShort) <==> 1 <= |Trim(value)| <= 9
    ensures r == Pass <==> |Trim(value)| >= 10
    ensures r.Fail? ==> r.msg != ""
  {
    var v := Trim(value);
    if v == [] then Fail(MessageRequired)
    else if |v| < 10 then Fail(MessageTooShort)
    else Pass
  }

  /** Each validator reports its field as required exactly when the value
      is empty or white space only. */
  lemma RequiredIffBlank(value: string)
    ensures NameVerdict(value) == Fail(NameRequired) <==> AllSpace(value)
    ensures EmailVerdict(value) == Fail(EmailRequired) <==> AllSpace(value)
    ensures MessageVerdict(value) == Fail(MessageRequired) <==> AllSpace(value)
  {
  }

  /** The e-mail validator passes exactly the trimmed values the regular
      expression matches, and rejects as invalid every other value that is
      not blank. */
  lemma EmailVerdictIsPattern(value: string)
    ensures EmailVerdict(value) == Pass <==> PatternMatches(Trim(value))
    ensures EmailVerdict(value) == Fail(EmailInvalid)
            <==> !AllSpace(value) && !PatternMatches(Trim(value))
  {
    ShapeIffPattern(Trim(value));
  }

  /** One form field: the input's value, its `input-error`/`aria-invalid`
      flag, and the text of its error element. */
  datatype Field = Field(value: string, invalid: bool, error: string)

  const Blank := Field("", false, "")

  /** The error flag is raised exactly when the error text is non-empty. */
  predicate Consistent(f: Field) {
    f.invalid <==> f.error != ""
  }

  /** `setError`: flag the input and write the message. */
  function SetError(f: Field, msg: string): (g: Field)
    requires msg != ""
    ensures g.value == f.value && Consistent(g)
    ensures g.invalid && g.error == msg
  {
    f.(invalid := true, error := msg)
  }

  /** `clearError`: unflag the input and empty its error element. */
  function ClearError(f: Field): (g: Field)
    ensures g.value == f.value && Consistent(g) && !g.invalid
  {
    f.(invalid := false, error := "")
  }

  /** What a validator leaves in its field after deciding `v`: the value is
      untouched, the flag is raised iff `v` failed, and the error text is
      the failure message or empty. */
  function Show(f: Field, v: Verdict): (g: Field)
    requires v.Fail? ==> v.msg != ""
    ensures g.value == f.value && Consistent(g)
    ensures g.invalid <==> v.Fail?
    ensures v.Fail? ==> g.error == v.msg
  {
    match v
    case Pass => ClearError(f)
    case Fail(msg) => SetError(f, msg)
  }

  /** What `Show` writes depends only on the verdict, not on the error
      state it finds; so re-running a validator on an unchanged value
      leaves the field as the first run left it. */
  lemma ShowForgetsPrior(f: Field, g: Field, v: Verdict)
    requires v.Fail? ==> v.msg != ""
    requires f.value == g.value
    ensures Show(f, v) == Show(g, v)
  {
  }

  /** Idempotence of each validator: a second run on the field the first
      run produced changes nothing. */
  lemma ValidateTwice(f: Field)
    ensures var g := Show(f, NameVerdict(f.value)); Show(g, NameVerdict(g.value)) == g
    ensures var g := Show(f, EmailVerdict(f.value)); Show(g, EmailVerdict(g.value)) == g
    ensures var g := Show(f, MessageVerdict(f.value)); Show(g, MessageVerdict(g.value)) == g
  {
  }

  /** The example of a rejected address: `al@example` has no dot after the `@`. */
  lemma NoDotAddressRejected()
    ensures EmailVerdict("al@example") == Fail(EmailInvalid)
  {
    var s := "al@example";
    assert !IsSpace(s[0]) && !IsSpace(s[|s| - 1]);
    TrimKeepsTrimmed(s);
    assert forall k :: 0 <= k < |s| ==> s[k] != '.';
    NoDotNoMatch(s);
    EmailVerdictIsPattern(s);
  }

  /** Values all three validators pass: a two-letter name, an address
      with a dotted domain, and a message of 22 code units. */
  lemma SampleNamePasses()
    ensures NameVerdict("Al") == Pass
  {
    TrimKeepsTrimmed("Al");
  }

  lemma SampleEmailPasses()
    ensures EmailVerdict("al@example.com") == Pass
  {
    var e := "al@example.com";
    assert !IsSpace(e[0]) && !IsSpace(e[|e| - 1]);
    TrimKeepsTrimmed(e);
    assert SplitsAt(e, 2, 10);
    EmailVerdictIsPattern(e);
  }

  lemma SampleMessagePasses()
    ensures MessageVerdict("Hi there, how are you?") == Pass
  {
    TrimKeepsTrimmed("Hi there, how are you?");
  }
}
