/** `validateField`: six checks run in the script's order over one form field.
    Each check that fires marks the field invalid and overwrites the message,
    so the verdict is "valid unless some check fired" and the message is that
    of the last check that fired. */
module Validation {
  import opened Options
  import opened Text
  import opened Validators

  /** What `validateField` reads from a form control.  `kind` is the control's
      `type` attribute ("radio", "checkbox", "email", "url", "text", ...);
      `groupHasChecked` says whether some radio button of the same name is
      selected; `gpaParse` is `parseFloat(value)`, with `None` for NaN. */
  datatype Field = Field(
    kind: string,
    name: string,
    value: string,
    required: bool,
    checked: bool,
    groupHasChecked: bool,
    gpaParse: Option<real>)

  datatype Verdict = Verdict(valid: bool, message: string)

  const ChooseOneMessage := "Vui lòng chọn một tùy chọn"
  const AgreementMessage := "Bạn phải đồng ý với cam kết"
  const RequiredMessage := "Trường này là bắt buộc"
  const EmailMessage := "Email không hợp lệ"
  const PhoneMessage := "Số điện thoại phải có 10-11 số và bắt đầu bằng 0"
  const StudentIdMessage := "Mã SV phải có dạng XX1234 (2 chữ + số)"
  const GpaMessage := "GPA phải từ 0.00 đến 4.00"
  const UrlMessage := "URL không hợp lệ"

  /** A required control whose value trims to nothing: a radio group needs a
      selection, the agreement checkbox must be ticked, anything else fails. */
  function RequiredCheck(f: Field): Option<string> {
    if f.required && Trim(f.value) == "" then
      if f.kind == "radio" then
        if f.groupHasChecked then None else Some(ChooseOneMessage)
      else if f.kind == "checkbox" && f.name == "agreement" then
        if f.checked then None else Some(AgreementMessage)
      else
        Some(RequiredMessage)
    else
      None
  }

  function EmailCheck(f: Field): Option<string> {
    if f.kind == "email" && f.value != "" && !IsValidEmail(f.value) then Some(EmailMessage) else None
  }

  function PhoneCheck(f: Field): Option<string> {
    if f.name == "phone" && f.value != "" && !IsValidPhone(f.value) then Some(PhoneMessage) else None
  }

  function StudentIdCheck(f: Field): Option<string> {
    if f.name == "studentId" && f.value != "" && !IsValidStudentId(f.value) then Some(StudentIdMessage) else None
  }

  /** Comparisons with NaN are false, so an unreadable GPA never fires. */
  function GpaCheck(f: Field): Option<string> {
    if f.name == "gpa" && f.value != "" then
      match f.gpaParse
      case Some(g) => if g < 0.0 || g > 4.0 then Some(GpaMessage) else None
      case None => None
    else
      None
  }

  /** `isValidUrl` stands for the URL parser the page relies on. */
  function UrlCheck(f: Field, isValidUrl: string -> bool): Option<string> {
    if f.kind == "url" && f.value != "" && !isValidUrl(f.value) then Some(UrlMessage) else None
  }

  /** The checks' outcomes in `validateField`'s order. */
  function Checks(f: Field, isValidUrl: string -> bool): seq<Option<string>> {
    [RequiredCheck(f), EmailCheck(f), PhoneCheck(f), StudentIdCheck(f), GpaCheck(f), UrlCheck(f, isValidUrl)]
  }

  /** One step of `validateField`'s sequence of `if`s. */
  function Apply(v: Verdict, outcome: Option<string>): Verdict {
    match outcome
    case Some(m) => Verdict(false, m)
    case None => v
  }

  /** Runs the outcomes in order from verdict `v`.  The result is `v` when
      nothing fires; otherwise it is invalid and carries the message of the
      last outcome that fired. */
  function Fold(v: Verdict, outcomes: seq<Option<string>>): (r: Verdict)
    ensures (forall k :: 0 <= k < |outcomes| ==> outcomes[k].None?) ==> r == v
    ensures (exists k :: 0 <= k < |outcomes| && outcomes[k].Some?) ==>
              && !r.valid
              && exists k :: 0 <= k < |outcomes| && outcomes[k] == Some(r.message)
                             && forall j :: k < j < |outcomes| ==> outcomes[j].None?
    decreases |outcomes|
  {
    if outcomes == [] then v
    else
      var r := Fold(Apply(v, outcomes[0]), outcomes[1..]);
      assert forall k :: 1 <= k < |outcomes| ==> outcomes[k] == outcomes[1..][k - 1];
      r
  }

  function ValidateField(f: Field, isValidUrl: string -> bool): (v: Verdict)
    ensures v.valid <==> forall k :: 0 <= k < 6 ==> Checks(f, isValidUrl)[k].None?
    ensures !v.valid ==> exists k :: 0 <= k < 6 && Checks(f, isValidUrl)[k] == Some(v.message)
                                     && forall j :: k < j < 6 ==> Checks(f, isValidUrl)[j].None?
    ensures v.valid <==> v.message == ""
  {
    var checks := Checks(f, isValidUrl);
    assert |checks| == 6;
    CheckMessagesNonEmpty(f, isValidUrl);
    Fold(Verdict(true, ""), checks)
  }

  /** Every message a check can produce is non-empty. */
  lemma CheckMessagesNonEmpty(f: Field, isValidUrl: string -> bool)
    ensures forall k :: 0 <= k < |Checks(f, isValidUrl)| ==> Checks(f, isValidUrl)[k] != Some("")
  {
  }

  /** `handleSubmit` validates every control (it does not stop at the first
      failure, so every invalid control gets its message) and submits only
      when all of them pass. */
  method ValidateAll(fields: seq<Field>, isValidUrl: string -> bool) returns (ok: bool, verdicts: seq<Verdict>)
    ensures |verdicts| == |fields|
    ensures forall i :: 0 <= i < |fields| ==> verdicts[i] == ValidateField(fields[i], isValidUrl)
    ensures ok <==> forall i :: 0 <= i < |fields| ==> verdicts[i].valid
  {
    ok := true;
    verdicts := [];
    for n := 0 to |fields|
      invariant |verdicts| == n
      invariant forall i :: 0 <= i < n ==> verdicts[i] == ValidateField(fields[i], isValidUrl)
      invariant ok <==> forall i :: 0 <= i < n ==> verdicts[i].valid
    {
      var v := ValidateField(fields[n], isValidUrl);
      ok := ok && v.valid;
      verdicts := verdicts + [v];
    }
  }

  /** If outcome `i` fired and none after it did, any verdict carrying the
      message of a last-fired outcome carries outcome `i`'s. */
  lemma LastFiredWins(checks: seq<Option<string>>, v: Verdict, i: int)
    requires 0 <= i < |checks| && checks[i].Some?
    requires forall j :: i < j < |checks| ==> checks[j].None?
    requires exists k :: 0 <= k < |checks| && checks[k] == Some(v.message)
                         && forall j :: k < j < |checks| ==> checks[j].None?
    ensures v.message == checks[i].value
  {
  }

  /** A field that is not required and left empty passes every check. */
  lemma EmptyOptionalFieldIsValid(f: Field, isValidUrl: string -> bool)
    requires !f.required && f.value == ""
    ensures ValidateField(f, isValidUrl) == Verdict(true, "")
  {
  }

  /** A required blank control fails whatever its type, except a radio
      button whose group has a selection and a ticked agreement box.  When
      the value is the empty string no later check can fire, so those two
      are the only passes and the message is the required-field one. */
  lemma RequiredBlankFieldFails(f: Field, isValidUrl: string -> bool)
    requires f.required && AllWhitespace(f.value)
    ensures !(f.kind == "radio" && f.groupHasChecked)
            && !(f.kind == "checkbox" && f.name == "agreement" && f.checked)
            ==> !ValidateField(f, isValidUrl).valid
    ensures f.value == "" ==>
              ValidateField(f, isValidUrl).message ==
                if f.kind == "radio" then (if f.groupHasChecked then "" else ChooseOneMessage)
                else if f.kind == "checkbox" && f.name == "agreement" then (if f.checked then "" else AgreementMessage)
                else RequiredMessage
  {
    assert Trim(f.value) == [];
    var checks := Checks(f, isValidUrl);
    var v := ValidateField(f, isValidUrl);
    if !(f.kind == "radio" && f.groupHasChecked) && !(f.kind == "checkbox" && f.name == "agreement" && f.checked) {
      assert checks[0].Some?;
    }
    if f.value == "" {
      assert checks == [RequiredCheck(f), None, None, None, None, None];
      if checks[0].Some? {
        LastFiredWins(checks, v, 0);
      }
    }
  }

  /** The GPA rule: for a field named "gpa" (a number input, not an email or
      URL control) the only way to fail besides being required and blank is a
      parsed value outside [0, 4]; an unparseable value never fails. */
  lemma GpaFieldVerdict(f: Field, isValidUrl: string -> bool)
    requires f.name == "gpa" && f.kind != "email" && f.kind != "url"
    ensures ValidateField(f, isValidUrl).valid <==>
              && RequiredCheck(f).None?
              && (f.value == "" || f.gpaParse.None? || 0.0 <= f.gpaParse.value <= 4.0)
  {
    var checks := Checks(f, isValidUrl);
    assert checks == [RequiredCheck(f), None, None, None, GpaCheck(f), None];
    assert (forall k :: 0 <= k < 6 ==> checks[k].None?) <==> checks[0].None? && checks[4].None?;
  }

  /** When several checks fire, the later one's message wins: a required
      phone field holding only spaces is both blank and not a phone number,
      and the phone message is what the user sees. */
  lemma LaterCheckOverwritesMessage(f: Field, isValidUrl: string -> bool)
    requires f.name == "phone" && f.kind !in {"email", "url", "radio"}
    requires f.required && f.value != "" && AllWhitespace(f.value)
    ensures RequiredCheck(f) == Some(RequiredMessage)
    ensures ValidateField(f, isValidUrl) == Verdict(false, PhoneMessage)
  {
    assert RequiredCheck(f) == Some(RequiredMessage) by {
      assert Trim(f.value) == [];
    }
    assert PhoneCheck(f) == Some(PhoneMessage) by {
      assert !IsDigit(f.value[0]);
    }
    assert EmailCheck(f) == None && StudentIdCheck(f) == None;
    assert GpaCheck(f) == None && UrlCheck(f, isValidUrl) == None;
    var checks := Checks(f, isValidUrl);
    LastFiredWins(checks, ValidateField(f, isValidUrl), 2);
  }
}
