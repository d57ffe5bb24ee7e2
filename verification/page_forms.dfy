/** The form-level handlers: `validateForm` of the main page script and the
    submit handler of the registration form. Both call the global
    `validateField`, and both page scripts declare one; the declaration that
    is loaded last is the one every caller reaches. Which one that is is a
    parameter here, so each handler is modelled with either declaration. */
module PageForms {
  import opened Fields
  import Main = MainValidation
  import Registration = RegistrationForm

  /** The script whose `validateField` declaration is live on the page. */
  datatype Version = MainScript | RegistrationScript

  /** The verdict the live `validateField` reaches on `f`. It depends on the
      field's value and its constant attributes only. */
  function LiveVerdict(version: Version, f: Field): (v: Verdict)
    reads f`value
  {
    match version
    case MainScript => Main.FieldVerdict(f.inputType, f.required, f.value)
    case RegistrationScript => Registration.FieldVerdict(f.inputType, f.id, f.required, f.value)
  }

  /** The error state the live `validateField` leaves on a field whose verdict
      is `v` and whose error state was `st`: a failure is displayed either way;
      on a pass the main script's version clears the error and the registration
      version leaves it as it was. */
  function AfterValidation(version: Version, v: Verdict, st: ErrorState): ErrorState {
    if v.Fail? then ErrorState(true, Showing(v.kind))
    else if version == MainScript then ErrorState(false, Hidden)
    else st
  }

  /** Validating again with the same verdict changes nothing: whatever the
      version, the state after one call is already the state after two. */
  lemma AfterValidationIdempotent(version: Version, v: Verdict, st: ErrorState)
    ensures AfterValidation(version, v, AfterValidation(version, v, st)) == AfterValidation(version, v, st)
  {
  }

  /** A call of the global `validateField`, served by the live declaration;
      the registration form's `blur` handler is exactly this call. */
  method ValidateField(version: Version, f: Field) returns (ok: bool)
    modifies f`errorClass, f`message
    ensures ok <==> LiveVerdict(version, f) == Ok
    ensures f.State() == AfterValidation(version, LiveVerdict(version, f), old(f.State()))
  {
    match version
    case MainScript =>
      ok := Main.ValidateField(f);
    case RegistrationScript =>
      ok := Registration.ValidateField(f);
  }

  /** `validateForm`: false when the form is missing; otherwise every field is
      validated (there is no early exit), each field ends in the state the live
      `validateField` leaves, and the form is valid iff every field passed.
      Field values are left as they were. */
  method ValidateForm(version: Version, form: Form?) returns (valid: bool)
    modifies if form == null then {} else form.Elements()
    ensures form == null ==> !valid
    ensures form != null ==> (valid <==> forall f | f in form.fields :: LiveVerdict(version, f) == Ok)
    ensures form != null ==> forall f | f in form.fields ::
              f.value == old(f.value) &&
              f.State() == AfterValidation(version, LiveVerdict(version, f), old(f.State()))
    ensures form != null && version == MainScript ==> forall f | f in form.fields :: Main.ShowsVerdict(f)
  {
    if form == null {
      return false;
    }
    valid := true;
    var i := 0;
    while i < |form.fields|
      invariant i <= |form.fields|
      invariant forall f | f in form.fields :: f.value == old(f.value)
      invariant forall f | f in form.fields[..i] ::
                  f.State() == AfterValidation(version, LiveVerdict(version, f), old(f.State()))
      invariant forall f | f in form.fields && f !in form.fields[..i] :: f.State() == old(f.State())
      invariant valid <==> forall f | f in form.fields[..i] :: LiveVerdict(version, f) == Ok
    {
      var g := form.fields[i];
      var ok := ValidateField(version, g);
      if !ok {
        valid := false;
      }
      AfterValidationIdempotent(version, LiveVerdict(version, g), old(g.State()));
      assert form.fields[..i + 1] == form.fields[..i] + [g];
      i := i + 1;
    }
    assert form.fields[..i] == form.fields;
  }

  /** What the registration submit handler does once every field has been
      validated. */
  datatype SubmitOutcome =
    | SimulateSending       // spinner on the submit button, success message after a delay
    | ShowFixErrorsBanner   // "please correct the errors in the form"

  /** The registration form's submit handler: validate every field (no early
      exit) with the live `validateField`; go on to the simulated sending iff
      all passed, otherwise show the error banner. No value changes. */
  method OnSubmit(version: Version, form: Form) returns (outcome: SubmitOutcome)
    modifies form.Elements()
    ensures outcome == SimulateSending <==> forall f | f in form.fields :: LiveVerdict(version, f) == Ok
    ensures forall f | f in form.fields ::
              f.value == old(f.value) &&
              f.State() == AfterValidation(version, LiveVerdict(version, f), old(f.State()))
    ensures version == RegistrationScript ==> forall f | f in form.fields :: Registration.ShowsFailure(f)
    ensures version == MainScript ==> forall f | f in form.fields && LiveVerdict(version, f) == Ok ::
              !f.errorClass && f.message == Hidden
  {
    var isValid := true;
    var i := 0;
    while i < |form.fields|
      invariant i <= |form.fields|
      invariant forall f | f in form.fields :: f.value == old(f.value)
      invariant forall f | f in form.fields[..i] ::
                  f.State() == AfterValidation(version, LiveVerdict(version, f), old(f.State()))
      invariant forall f | f in form.fields && f !in form.fields[..i] :: f.State() == old(f.State())
      invariant isValid <==> forall f | f in form.fields[..i] :: LiveVerdict(version, f) == Ok
    {
      var g := form.fields[i];
      var ok := ValidateField(version, g);
      if !ok {
        isValid := false;
      }
      AfterValidationIdempotent(version, LiveVerdict(version, g), old(g.State()));
      assert form.fields[..i + 1] == form.fields[..i] + [g];
      i := i + 1;
    }
    assert form.fields[..i] == form.fields;
    outcome := if isValid then SimulateSending else ShowFixErrorsBanner;
  }
}
