/** Sample inputs: what the format checks say about a few concrete values,
    and what validating a small form does. */
module Samples {
  import opened Text
  import opened Formats
  import opened Fields
  import PageForms

  /** The sample addresses: `a@b.c` is accepted; `a@b` (no dot after the `@`),
      `a` (no `@`) and `a b@c.d` (whitespace) are rejected. */
  lemma EmailExamples()
    ensures IsValidEmail("a@b.c")
    ensures !IsValidEmail("a@b") && !IsValidEmail("a") && !IsValidEmail("a b@c.d")
  {
    var s := "a@b.c";
    assert 0 <= 1 < 3 < |s| && s[1] == '@' && s[3] == '.' &&
      AtomRun(s, 0, 1) && AtomRun(s, 1 + 1, 3) && AtomRun(s, 3 + 1, |s|);
    EmailPatternIff("a b@c.d");
    assert IsWs("a b@c.d"[1]);
  }

  /** A number written with dashes passes `isValidPhone`: the dashes are
      stripped and ten digits remain. */
  lemma DashedPhoneExample()
    ensures IsValidPhone("123-456-7890")
  {
  }

  /** Ten digits pass `isValidPhone`, five digits fail. */
  lemma DigitPhoneExamples()
    ensures IsValidPhone("1234567890") && !IsValidPhone("12345")
  {
  }

  /** The sample identifiers: ten and twelve digits pass, nine and eleven fail. */
  lemma InnExamples()
    ensures IsValidINN("1234567890") && IsValidINN("123456789012")
    ensures !IsValidINN("123456789") && !IsValidINN("12345678901")
  {
  }

  /** A form with a required field left blank and a well-formed email field:
      `validateForm` reports it invalid and exactly one field is flagged,
      whichever `validateField` declaration is live. */
  method BlankRequiredFieldAndGoodEmail(version: PageForms.Version) returns (valid: bool, flagged: nat)
    ensures !valid && flagged == 1
  {
    var name := new Field("text", "name", true, "   ");
    var email := new Field("email", "email", false, "a@b.c");
    var form := new Form([name, email]);
    TrimKeepsTrimmed("a@b.c");
    EmailExamples();
    valid := PageForms.ValidateForm(version, form);
    assert name in form.fields && email in form.fields;
    flagged := (if name.errorClass then 1 else 0) + (if email.errorClass then 1 else 0);
  }
}
