/** Validation of the registration form (`js/form-validation.js`). Its
    `validateField` refuses a required field left empty and then applies one
    check chosen by the field's type: the email pattern, at least ten digits in
    a telephone number, and the tax-identifier pattern for the text field whose
    id is `inn`. Unlike the main script's version it never clears an error; the
    `input` handler does that. */
module RegistrationForm {
  import opened Text
  import opened Formats
  import opened Fields

  /** The decision this `validateField` takes for a field of the given type,
      id and `required` attribute holding `raw`. */
  function FieldVerdict(inputType: string, id: string, required: bool, raw: string): (v: Verdict)
    ensures v == Fail(Required) <==> required && AllWs(raw)
    ensures AllWs(raw) ==> (v == Ok <==> !required)
    ensures v == Fail(BadEmail) ==> inputType == "email"
    ensures v == Fail(BadPhone) ==> inputType == "tel"
    ensures v == Fail(BadInn) ==> inputType == "text" && id == "inn"
  {
    var value := Trim(raw);
    if required && value == [] then Fail(Required)
    else if inputType == "email" then
      (if value != [] && !IsValidEmail(value) then Fail(BadEmail) else Ok)
    else if inputType == "tel" then
      (if value != [] && !IsValidPhone(value) then Fail(BadPhone) else Ok)
    else if inputType == "text" then
      (if id == "inn" && value != [] && !IsValidINN(value) then Fail(BadInn) else Ok)
    else Ok
  }

  /** A non-empty email field passes iff its trimmed value has the shape of an
      address (see `EmailShape`). */
  lemma EmailVerdict(id: string, required: bool, raw: string)
    requires !AllWs(raw)
    ensures FieldVerdict("email", id, required, raw) == Ok <==> EmailShape(Trim(raw))
    ensures FieldVerdict("email", id, required, raw) in {Ok, Fail(BadEmail)}
  {
    EmailPatternIff(Trim(raw));
  }

  /** A non-empty telephone field passes iff at least ten positions of its
      trimmed value hold a digit, whatever the other characters are. */
  lemma TelVerdict(id: string, required: bool, raw: string)
    requires !AllWs(raw)
    ensures FieldVerdict("tel", id, required, raw) == Ok <==> |DigitPositions(Trim(raw))| >= 10
    ensures FieldVerdict("tel", id, required, raw) in {Ok, Fail(BadPhone)}
  {
    PhoneHasTenDigits(Trim(raw));
  }

  /** A non-empty text field with id `inn` passes iff its trimmed value is ten
      or twelve digits. */
  lemma InnVerdict(required: bool, raw: string)
    requires !AllWs(raw)
    ensures FieldVerdict("text", "inn", required, raw) == Ok <==>
              AllDigits(Trim(raw)) && (|Trim(raw)| == 10 || |Trim(raw)| == 12)
    ensures FieldVerdict("text", "inn", required, raw) in {Ok, Fail(BadInn)}
  {
  }

  /** The tax-identifier check applies to no other field: a non-empty text field
      with another id passes, and so does a non-empty field of any type other
      than `email`, `tel` and `text`. */
  lemma OnlyInnFieldIsChecked(inputType: string, id: string, required: bool, raw: string)
    requires !AllWs(raw)
    requires (inputType == "text" && id != "inn") ||
             (inputType != "email" && inputType != "tel" && inputType != "text")
    ensures FieldVerdict(inputType, id, required, raw) == Ok
  {
  }

  /** Whitespace around the value never changes the verdict. */
  lemma VerdictSeesTrimmedValue(inputType: string, id: string, required: bool, raw: string)
    ensures FieldVerdict(inputType, id, required, Trim(raw)) == FieldVerdict(inputType, id, required, raw)
  {
    TrimIdempotent(raw);
  }

  /** The verdict on a field, as this `validateField` reaches it. */
  function VerdictOf(f: Field): (v: Verdict)
    reads f
  {
    FieldVerdict(f.inputType, f.id, f.required, f.value)
  }

  /** The field displays the failure its verdict reports, if any. */
  ghost predicate ShowsFailure(f: Field)
    reads f
  {
    VerdictOf(f).Fail? ==> f.errorClass && f.message == Showing(VerdictOf(f).kind)
  }

  /** `validateField`: the `required` check returns at once; otherwise the
      check for the field's type may display an error. A field that passes
      keeps whatever error state it had. */
  method ValidateField(f: Field) returns (ok: bool)
    modifies f`errorClass, f`message
    ensures ok <==> VerdictOf(f) == Ok
    ensures ok ==> f.errorClass == old(f.errorClass) && f.message == old(f.message)
    ensures !ok ==> f.errorClass && f.message == Showing(VerdictOf(f).kind)
    ensures old(f.Consistent()) ==> f.Consistent()
  {
    var value := Trim(f.value);
    var isValid := true;
    if f.required && value == [] {
      ShowFieldError(f, Required);
      return false;
    }
    if f.inputType == "email" {
      if value != [] && !IsValidEmail(value) {
        ShowFieldError(f, BadEmail);
        isValid := false;
      }
    } else if f.inputType == "tel" {
      if value != [] && !IsValidPhone(value) {
        ShowFieldError(f, BadPhone);
        isValid := false;
      }
    } else if f.inputType == "text" {
      if f.id == "inn" && value != [] && !IsValidINN(value) {
        ShowFieldError(f, BadInn);
        isValid := false;
      }
    }
    return isValid;
  }

  /** The `input` handler: if the field carries the `error` class, remove it
      and hide the message; otherwise change nothing. */
  method OnInput(f: Field)
    modifies f`errorClass, f`message
    ensures old(f.errorClass) ==> !f.errorClass && f.message == Hidden
    ensures !old(f.errorClass) ==> f.errorClass == old(f.errorClass) && f.message == old(f.message)
    ensures old(f.Consistent()) ==> f.Consistent()
  {
    if f.errorClass {
      f.errorClass := false;
      f.message := Hidden;
    }
  }
}
