/** The page scripts declare two global `validateField` functions, and which
    one a page ends up calling depends on the order its scripts load. Neither
    is preferred here; these lemmas say where the two decisions agree and
    where they part ways. */
module ValidatorVersions {
  import opened Text
  import opened Formats
  import opened Fields
  import Main = MainValidation
  import Registration = RegistrationForm

  /** Both versions refuse a required field holding only whitespace, and only
      such a field, for being empty; neither looks at its type then. */
  lemma SameRequiredRule(inputType: string, id: string, required: bool, raw: string)
    ensures Main.FieldVerdict(inputType, required, raw) == Fail(Required) <==>
            Registration.FieldVerdict(inputType, id, required, raw) == Fail(Required)
    ensures required && AllWs(raw) ==>
              Main.FieldVerdict(inputType, required, raw) == Fail(Required) &&
              Registration.FieldVerdict(inputType, id, required, raw) == Fail(Required)
  {
  }

  /** Both versions use the same email pattern, so they agree on every email
      field. */
  lemma SameEmailRule(id: string, required: bool, raw: string)
    ensures Main.FieldVerdict("email", required, raw) == Registration.FieldVerdict("email", id, required, raw)
  {
  }

  /** A telephone field holding ten or more dashes passes the main script and
      fails the registration script. */
  lemma TelRulesDifferOnDashes(id: string, required: bool, dashes: string)
    requires |dashes| >= 10 && forall k :: 0 <= k < |dashes| ==> dashes[k] == '-'
    ensures Main.FieldVerdict("tel", required, dashes) == Ok
    ensures Registration.FieldVerdict("tel", id, required, dashes) == Fail(BadPhone)
  {
    TrimKeepsTrimmed(dashes);
    DashesPassPatternOnly(dashes);
  }

  /** A telephone field holding ten digits after a prefix of letters fails the
      main script and passes the registration script. */
  lemma TelRulesDifferOnPrefix(id: string, required: bool, prefix: string, number: string)
    requires prefix != [] && forall k :: 0 <= k < |prefix| ==> !IsPhonePatternChar(prefix[k])
    requires AllDigits(number) && |number| >= 10
    ensures Main.FieldVerdict("tel", required, prefix + number) == Fail(BadPhone)
    ensures Registration.FieldVerdict("tel", id, required, prefix + number) == Ok
  {
    var s := prefix + number;
    assert s[0] == prefix[0] && s[|s| - 1] == number[|number| - 1];
    TrimKeepsTrimmed(s);
    PrefixedNumberPassesDigitRuleOnly(prefix, number);
  }

  /** On a telephone value made only of digits the two versions agree. */
  lemma TelRulesAgreeOnDigits(id: string, required: bool, raw: string)
    requires AllDigits(Trim(raw))
    ensures Main.FieldVerdict("tel", required, raw) == Registration.FieldVerdict("tel", id, required, raw)
  {
    AllDigitPhoneRulesAgree(Trim(raw));
  }

  /** Only the registration script checks the tax identifier: a non-empty
      `inn` text field that is not ten or twelve digits passes the main
      script and fails the registration script. */
  lemma InnCheckedOnlyByRegistration(required: bool, raw: string)
    requires !AllWs(raw) && !IsValidINN(Trim(raw))
    ensures Main.FieldVerdict("text", required, raw) == Ok
    ensures Registration.FieldVerdict("text", "inn", required, raw) == Fail(BadInn)
  {
  }
}
