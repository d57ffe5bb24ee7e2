/** Field and form validation of the main page script (`js/main.js`): its
    `validateField` clears a field's previous error, then refuses a required
    field left empty, an email field whose value does not match the email
    pattern, and a telephone field whose value does not match the telephone
    character pattern. */
module MainValidation {
  import opened Text
  import opened Formats
  import opened Fields

  /** The decision `validateField` takes for a field of the given type and
      `required` attribute holding `raw`. Only the trimmed value is examined. */
  function FieldVerdict(inputType: string, required: bool, raw: string): (v: Verdict)
    ensures v == Fail(Required) <==> required && AllWs(raw)
    ensures AllWs(raw) ==> (v == Ok <==> !required)
    ensures v == Fail(BadEmail) ==> inputType == "email"
    ensures v == Fail(BadPhone) ==> inputType == "tel"
    ensures v != Fail(BadInn)
  {
    var value := Trim(raw);
    if required && value == [] then Fail(Required)
    else if inputType == "email" && value != [] && !IsValidEmail(value) then Fail(BadEmail)
    else if inputType == "tel" && value != [] && !MatchesPhonePattern(value) then Fail(BadPhone)
    else Ok
  }

  /** A non-empty email field passes iff its trimmed value has no whitespace,
      exactly one `@` with something before it, and after the `@` a `.` with a
      character on each side. */
  lemma EmailVerdict(required: bool, raw: string)
    requires !AllWs(raw)
    ensures FieldVerdict("email", required, raw) == Ok <==> EmailShape(Trim(raw))
    ensures FieldVerdict("email", required, raw) in {Ok, Fail(BadEmail)}
  {
    EmailPatternIff(Trim(raw));
  }

  /** A non-empty telephone field passes iff its trimmed value is at least ten
      characters long and each is a digit, whitespace, `-`, `+`, `(` or `)`. */
  lemma TelVerdict(required: bool, raw: string)
    requires !AllWs(raw)
    ensures FieldVerdict("tel", required, raw) == Ok <==>
              |Trim(raw)| >= 10 && forall k :: 0 <= k < |Trim(raw)| ==> IsPhonePatternChar(Trim(raw)[k])
    ensures FieldVerdict("tel", required, raw) in {Ok, Fail(BadPhone)}
  {
  }

  /** A non-empty field of any type other than `email` and `tel` passes. */
  lemma OtherTypesPass(inputType: string, required: bool, raw: string)
    requires inputType != "email" && inputType != "tel"
    requires !AllWs(raw)
    ensures FieldVerdict(inputType, required, raw) == Ok
  {
  }

  /** Whitespace around the value never changes the verdict. */
  lemma VerdictSeesTrimmedValue(inputType: string, required: bool, raw: string)
    ensures FieldVerdict(inputType, required, Trim(raw)) == FieldVerdict(inputType, required, raw)
  {
    TrimIdempotent(raw);
  }

  /** The error state `validateField` leaves on `f`: the `error` class and the
      displayed message reflect the field's verdict. */
  ghost predicate ShowsVerdict(f: Field)
    reads f
  {
    var v := FieldVerdict(f.inputType, f.required, f.value);
    f.errorClass == v.Fail? && f.message == (if v.Ok? then Hidden else Showing(v.kind))
  }

  /** `validateField`: hide the previous error, then check in order the
      `required` attribute, the email pattern and the telephone pattern,
      displaying the first failure. */
  method ValidateField(f: Field) returns (ok: bool)
    modifies f`errorClass, f`message
    ensures ok <==> FieldVerdict(f.inputType, f.required, f.value) == Ok
    ensures ShowsVerdict(f) && f.Consistent()
  {
    var value := Trim(f.value);
    f.message := Hidden;
    f.errorClass := false;
    if f.required && value == [] {
      ShowFieldError(f, Required);
      return false;
    }
    if f.inputType == "email" && value != [] {
      if !IsValidEmail(value) {
        ShowFieldError(f, BadEmail);
        return false;
      }
    }
    if f.inputType == "tel" && value != [] {
      if !MatchesPhonePattern(value) {
        ShowFieldError(f, BadPhone);
        return false;
      }
    }
    return true;
  }
}
