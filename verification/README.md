# Form validation and page glue of a static marketing site, in Dafny

The site's scripts do three things worth stating exactly.

- **Field validation.** A form field's value is trimmed. A required field left empty is refused. Otherwise one check picked by the field's type may refuse it: an email pattern, a telephone rule, or a tax-identifier (INN) pattern. A refused field gets the `error` class and a message below it.
- **Form validation.** Submitting a form validates every field, with no early exit. The form is accepted iff every field passed.
- **Two small rules in the main script.** The mobile menu's open/closed state machine, and the rule that marks the current page's navigation link as active.

Two scripts each declare a global `validateField`. They differ:

- `js/main.js` clears the field's previous error first, and checks telephone numbers with a character pattern.
- `js/form-validation.js` never clears an error (its `input` handler does that). It checks telephone numbers by counting digits, and it also checks the tax identifier.

Both declarations are global, so whichever script loads last serves every call of `validateField`, including the calls in the other script's form handlers. The model keeps each declaration as its own method. The form-level handlers (`validateForm` of the main script, the registration form's submit handler) take the live declaration as a parameter, `PageForms.Version`, and are specified for either one. `ValidatorVersions` states where the two declarations agree and where they differ.

Modules:

- `Text` (text.dfy): whitespace as `trim` and `\s` see it, ASCII digits, `trim`.
- `Formats` (formats.dfy): the email, telephone and INN patterns as predicates. The email pattern and the digit-count telephone rule have a lemma that characterises them in other terms. The telephone character pattern and the INN pattern are written directly in that plain form: a length bound and a condition on every character.
- `Fields` (fields.dfy): fields and forms. The DOM error state of a field is reduced to the `error` class plus the kind of message on display. `showFieldError` is here.
- `MainValidation` (main_validation.dfy): `validateField` of the main script.
- `RegistrationForm` (registration_form.dfy): `validateField` and the `input` handler of the registration script.
- `PageForms` (page_forms.dfy): the global `validateField` as served by either declaration, `validateForm` of the main script, and the registration form's submit handler.
- `ValidatorVersions` (validator_versions.dfy): how the two `validateField` versions compare.
- `MobileMenu` (mobile_menu.dfy): the menu state machine, as transition functions and as a class with the three click handlers.
- `ActiveNav` (active_nav.dfy): the last path segment, and the loop that marks navigation links.
- `Samples` (samples.dfy): concrete inputs, and a small form validated end to end.

Representation choices:

- Strings are sequences of Unicode scalar values. Every character class in the patterns is either made of BMP characters only, or only required to match a non-empty run. So counting code points instead of UTF-16 units gives the same verdicts.
- Whitespace is the full ECMAScript WhiteSpace and LineTerminator set. `trim` and `\s` share it.
- A digit is an ASCII `0`-`9`, which is what `\d` and `\D` mean without the `u` flag.

Three facts about the code shape the model:

- Both `validateField` functions write the field's error state. Each is therefore a method over a `Field` object, specified by a pure verdict function.
- The code has two telephone rules, a character pattern in `js/main.js` and a digit count in `js/form-validation.js`. Both are kept.
- The tax identifier is checked only for a field of type `text` whose id is `inn`.

## Model

| member | source | states |
|---|---|---|
| Text.SkipWsForward | js/main.js:144 | the index it returns is the first non-whitespace position at or after the start; everything it skips is whitespace |
| Text.SkipWsBackward | js/main.js:144 | the index it returns is just past the last non-whitespace position; everything it skips is whitespace |
| Text.Trim | js/main.js:144 | `trim` returns an infix of the value with only whitespace cut on either side; a non-empty result starts and ends with non-whitespace; the result is empty iff the value is all whitespace |
| Text.TrimKeepsTrimmed | js/form-validation.js:69 | a value that neither starts nor ends with whitespace is unchanged by `trim` |
| Text.TrimIdempotent | js/form-validation.js:69 | trimming twice gives the same as trimming once |
| Formats.IsValidEmail | js/form-validation.js:106-109 | the email pattern as a predicate; what it accepts is characterised by `Formats.EmailPatternIff` |
| Formats.EmailPatternIff | js/form-validation.js:106-109 | `^[^\s@]+@[^\s@]+\.[^\s@]+$` matches exactly the strings with no whitespace, exactly one `@` that is not the first character, and after it a `.` that is neither the first nor the last character of the part after `@` |
| Formats.MatchesPhonePattern | js/main.js:171-172 | `^[\d\s\-\+\(\)]{10,}$` holds iff the value has at least ten characters and each is a digit, whitespace, `-`, `+`, `(` or `)`; no digit is required (`Formats.DashesPassPatternOnly`) |
| Formats.IsValidPhone | js/form-validation.js:112-116 | at least ten characters remain after stripping non-digits; characterised by `Formats.PhoneHasTenDigits` as at least ten digit positions |
| Formats.Digits | js/form-validation.js:114 | `replace(/\D/g, '')` keeps only digits and never lengthens the string |
| Formats.DigitsConcat | js/form-validation.js:114 | stripping non-digits from a concatenation is the concatenation of the stripped parts |
| Formats.DigitsOfNonDigits | js/form-validation.js:114 | a string with no digit strips to the empty string |
| Formats.DigitsOfDigits | js/form-validation.js:114 | a string of digits is unchanged by stripping |
| Formats.DigitCount | js/form-validation.js:114-115 | the stripped string has exactly one character per digit position of the input |
| Formats.PhoneHasTenDigits | js/form-validation.js:112-116 | `isValidPhone(s)` holds iff at least ten positions of `s` hold an ASCII digit |
| Formats.PhoneIgnoresNonDigits | js/form-validation.js:114-115 | inserting or removing non-digit characters anywhere never changes the `isValidPhone` verdict |
| Formats.DashesPassPatternOnly | js/main.js:171 | ten or more dashes satisfy the main script's telephone pattern but fail `isValidPhone` |
| Formats.PrefixedNumberPassesDigitRuleOnly | js/form-validation.js:112-116 | ten digits after a prefix of characters outside `[\d\s\-\+\(\)]` pass `isValidPhone` but fail the main script's telephone pattern |
| Formats.AllDigitPhoneRulesAgree | js/main.js:171 | on a string of digits, both telephone rules hold iff it has at least ten characters |
| Formats.IsValidINN | js/form-validation.js:119-122 | the INN pattern (exactly ten digits, or exactly twelve) holds iff the value is all ASCII digits and has length 10 or 12 |
| Fields.ShowFieldError | js/main.js:182-194 | after `showFieldError` the field carries the `error` class and displays the message for the given failure |
| MainValidation.FieldVerdict | js/main.js:143-179 | a required field is refused for being empty iff its value is all whitespace; an all-whitespace optional field passes; an email failure needs type `email`, a telephone failure needs type `tel`; the tax identifier is never checked |
| MainValidation.EmailVerdict | js/main.js:161-167 | a non-empty `email` field passes iff its trimmed value has the address shape of `EmailShape`; otherwise it fails as a bad email |
| MainValidation.TelVerdict | js/main.js:170-176 | a non-empty `tel` field passes iff its trimmed value has at least ten characters, each a digit, whitespace, `-`, `+`, `(` or `)`; otherwise it fails as a bad phone |
| MainValidation.OtherTypesPass | js/main.js:160-178 | a non-empty field of any type other than `email` and `tel` passes |
| MainValidation.VerdictSeesTrimmedValue | js/main.js:144 | surrounding whitespace never changes the verdict |
| MainValidation.ValidateField | js/main.js:143-179 | returns true iff the verdict is Ok; afterwards the `error` class is set iff it returned false, and the message shows that failure, or is hidden when the field passed |
| RegistrationForm.FieldVerdict | js/form-validation.js:68-103 | a required field is refused for being empty iff its value is all whitespace; an all-whitespace optional field passes; each failure kind needs its type (`email`, `tel`, or `text` with id `inn`) |
| RegistrationForm.EmailVerdict | js/form-validation.js:80-85 | a non-empty `email` field passes iff its trimmed value has the address shape; otherwise it fails as a bad email |
| RegistrationForm.TelVerdict | js/form-validation.js:87-92 | a non-empty `tel` field passes iff its trimmed value has at least ten digit positions; otherwise it fails as a bad phone |
| RegistrationForm.InnVerdict | js/form-validation.js:94-99 | a non-empty `text` field with id `inn` passes iff its trimmed value is all digits and has length 10 or 12; otherwise it fails as a bad INN |
| RegistrationForm.OnlyInnFieldIsChecked | js/form-validation.js:79-102 | a non-empty `text` field with another id passes, and so does a non-empty field of a type other than `email`, `tel` and `text` |
| RegistrationForm.VerdictSeesTrimmedValue | js/form-validation.js:69 | surrounding whitespace never changes the verdict |
| RegistrationForm.ValidateField | js/form-validation.js:68-103 | returns true iff the verdict is Ok; a passing field keeps the error state it had; a failing field gets the `error` class and the message for its failure |
| RegistrationForm.OnInput | js/form-validation.js:21-30 | when the field has the `error` class, the class is removed and the message hidden; otherwise nothing changes |
| PageForms.AfterValidationIdempotent | js/main.js:143-179 | with either declaration, validating a field a second time without a change of value leaves the state of the first validation |
| PageForms.ValidateField | js/form-validation.js:17-19 | the global `validateField` returns true iff the live declaration's verdict is Ok; a failing field then shows that failure; a passing field has its error cleared by the main script's declaration and keeps its error state under the registration declaration |
| PageForms.ValidateForm | js/main.js:197-211 | a missing form gives false; otherwise every field is validated with no early exit and ends in the state the live `validateField` leaves (with the main script's declaration, each field shows exactly its verdict), values are unchanged, and the result is true iff every field passed |
| PageForms.OnSubmit | js/form-validation.js:34-63 | every field is validated with no early exit by the live `validateField`; the simulated sending starts iff every field passed, otherwise the error banner is shown; with the registration declaration each failing field displays its failure and passing fields keep their error state; with the main script's declaration passing fields have their error cleared; values are unchanged |
| ValidatorVersions.SameRequiredRule | js/main.js:155-158 | both versions refuse a field for being empty in exactly the same cases: required and all whitespace |
| ValidatorVersions.SameEmailRule | js/main.js:161-167 | both versions give the same verdict on every `email` field |
| ValidatorVersions.TelRulesDifferOnDashes | js/main.js:170-176 | a `tel` field holding ten or more dashes passes the main script's version and fails the registration version |
| ValidatorVersions.TelRulesDifferOnPrefix | js/form-validation.js:87-92 | a `tel` field holding a letter prefix and ten digits fails the main script's version and passes the registration version |
| ValidatorVersions.TelRulesAgreeOnDigits | js/form-validation.js:112-116 | the two versions agree on `tel` fields whose trimmed value is all digits |
| ValidatorVersions.InnCheckedOnlyByRegistration | js/form-validation.js:94-99 | a non-empty `inn` text field that is not ten or twelve digits passes the main script's version and fails the registration version |
| MobileMenu.Toggled | js/main.js:18-28 | the button handler flips `active`, and the icon then carries the cross iff the menu is open and the bars otherwise |
| MobileMenu.Closed | js/main.js:33-37 | the link handler leaves the menu closed with the bars icon |
| MobileMenu.AfterDocumentClick | js/main.js:41-47 | a click inside the menu or the button changes nothing; a click elsewhere leaves the menu closed with the bars icon |
| MobileMenu.CloseIdempotent | js/main.js:41-47 | closing twice is closing once, and the closed state does not depend on the state before |
| MobileMenu.ToggleTwice | js/main.js:18-28 | from a state whose icon matches, two button clicks give that state back |
| MobileMenu.ButtonClickIsNotUndone | js/main.js:42 | when a button click reaches the document handler, that handler leaves the toggled state as it is |
| MobileMenu.Menu.OnButtonClick | js/main.js:18-28 | the new menu state is `Toggled` of the old one |
| MobileMenu.Menu.OnLinkClick | js/main.js:33-37 | the new menu state is closed with the bars icon |
| MobileMenu.Menu.OnDocumentClick | js/main.js:41-47 | the new menu state is `AfterDocumentClick` of the old one |
| ActiveNav.LastSegment | js/main.js:53 | the segment has no `/`, is a suffix of the path, and is either the whole path or preceded by a `/` |
| ActiveNav.LastSegmentUnique | js/main.js:53 | those three properties determine the segment |
| ActiveNav.IsCurrentLink | js/main.js:57-58 | the rule for one link as a predicate; what it selects is stated by `ActiveNav.CurrentLinks` |
| ActiveNav.CurrentLinks | js/main.js:58 | a link without `href` is never current; on a named page a link is current iff its `href` is that name; on a path ending in `/` the current links are those to `index.html` or with an empty `href` |
| ActiveNav.MarkLinks | js/main.js:55-63 | every link ends up active iff the rule holds for its `href` and the given page name; all other links end up inactive |
| ActiveNav.InitActiveNav | js/main.js:52-64 | every link ends up active iff the rule holds for its `href` and the path's last segment; all other links end up inactive |
| Samples.EmailExamples | js/form-validation.js:106-109 | `a@b.c` is a valid address; `a@b`, `a` and `a b@c.d` are not |
| Samples.DashedPhoneExample | js/form-validation.js:112-116 | `123-456-7890` passes `isValidPhone` |
| Samples.DigitPhoneExamples | js/form-validation.js:112-116 | `1234567890` passes `isValidPhone`, `12345` fails |
| Samples.InnExamples | js/form-validation.js:119-122 | ten and twelve digits are valid INNs; nine and eleven digits are not |
| Samples.BlankRequiredFieldAndGoodEmail | js/main.js:197-211 | a form with a blank required field and a well-formed email is invalid and exactly one field is flagged, whichever `validateField` declaration is live |

## Left out

- DOM structure is not modelled: where the error `<div>` is created (`nextElementSibling`, `createElement`, `appendChild`) and how many accumulate. A field's error state is one `error` flag plus the kind of message on display. As a result, the model assumes that the main script's reset and the registration form's `input` handler always hide the message that `showFieldError` displayed, although both hide it only when the field's next sibling is the error element.
- Message texts and markup are not modelled: `showMessage`, `showSuccessMessage`, and the literal Russian strings. Failures are kinds of error, and the submit outcome is a value.
- Scrolling is not modelled: `scrollIntoView` in `showFieldError` and the submit paths, and the scroll-to-top button. The button's visibility depends on a floating-point scroll offset.
- Timers are not modelled: the five-second auto-hide of success messages, and the 1.5-second simulated sending with its spinner and button re-enable. `PageForms.OnSubmit` stops at the decision to start sending.
- `form.reset()` is not modelled, because its effect depends on default values in the markup.
- `submitForm` in the main script is not modelled. It calls `validateForm` and shows a message, and its message and reset parts are covered by the items above.
- `initContactForm` is not modelled. Its submit handler calls the main script's `validateForm` (`PageForms.ValidateForm`) and, on success, shows a message and resets the form. Its message and reset parts are covered by the items above.
- The fade-in animations (IntersectionObserver) and the footer year (`Date`) are not modelled, because they are browser services.
- The event wiring is not modelled: `addEventListener`, `DOMContentLoaded`, and the guards that attach handlers only when an element exists. Each handler is a method or function. For the document click handler, whether the target lies inside the menu or the button is a parameter.
- A missing menu icon (`querySelector('i')` returning null) would make the handlers throw. The model assumes the icon exists.
- The order in which a page loads its scripts is not modelled. It decides which `validateField` declaration is live, and that choice is the `PageForms.Version` parameter.
- Field values are changed by the browser between events. No modelled operation writes them.
