# Form-validation controller, modelled in Dafny

This project models the client-side form-validation controller of
`scripts/forms.js`. The controller listens to the `input` and `submit` events
of a form. On each input it:

1. re-derives the custom validity message of the control that fired;
2. re-checks that the password and its confirmation match;
3. copies the control's validation message into the slot element that follows it;
4. enables or disables the submit button and swaps its valid/invalid classes.

On submit it resets a valid form and leaves an invalid one alone.

The DOM is replaced by an abstract form:

- `Forms.Field` is a form control. It holds its value and default value, its
  type, and its `minlength`/`maxlength` attribute texts. It also holds the
  browser's native flags and message, its custom validity message, and the
  text of its error slot.
- `Forms.Button` is the submit button: its `disabled` flag and its class set.
- `Forms.Form` holds the controls in document order and the button. It also
  holds a map `found` that stands for what `querySelector` returns for the
  password selectors.

Validity follows the constraint-validation model of the WHATWG HTML Living
Standard, section 4.10.20 ("Constraints"). A control is valid when no native
flag is set and its custom message is empty. `checkValidity()` is the
conjunction over the controls. `validationMessage` is the custom message when
there is one, otherwise the browser's message. `reset()` (section 4.10.22)
puts every value back to its default.

Layout:

- `wrappers.dfy`: `Option`.
- `decimal.dfy`: how `${current}` renders a length as a decimal numeral, and
  how to read it back.
- `rules.dfy` (module `FormRules`): the controller's rules as pure functions,
  with lemmas about them. It covers the message rules, the button classes, and
  the password guard both as written and corrected.
- `forms.dfy` (module `Forms`): the classes and the handlers. Each handler
  updates objects in place under a `modifies` clause. Its postcondition ties
  the new state to the `FormRules` functions.

Facts about the model worth knowing before reading it:

- The handlers (`Forms.ValidatePasswordsMatch`, `Forms.HandleFormInput`, via
  `Forms.Form.PasswordStep`) use the corrected guard, which runs the password
  rule only when both selectors are set and both controls are found. The
  guard as written in scripts/forms.js:85 and :93 uses `||`; it is modelled by
  `FormRules.GuardAsWritten` and `Forms.ValidatePasswordsMatchAsWritten` and
  logged under Findings.
- The current length in the length message is `value.length` of a JavaScript
  string, counted in UTF-16 code units (`FormRules.Utf16Length`): a character
  outside the Basic Multilingual Plane counts twice.
- A selector in the configuration counts as set only when it is present and
  non-empty (`FormRules.Configured`), as JavaScript's truthiness reads it.
  An empty selector that gets past the written guard makes `querySelector("")`
  throw a SyntaxError before anything changes. No lookup of the empty
  selector finds a control (`Forms.Form.Valid`).
- A missing `minlength`/`maxlength` attribute renders as the text `null` in the
  length message.
- `reset()` keeps custom validity messages and slot texts.

The message texts are kept verbatim as string constants.

## Model

| member | source | states |
|---|---|---|
| `Decimal.FromNat` | scripts/forms.js:71-74 | the rendered length is a non-empty numeral of digits with no leading zero |
| `Decimal.ValueOfFromNat` | scripts/forms.js:71-74 | reading the rendered numeral back gives the length that was rendered |
| `FormRules.MessageEmptyIffValid` | scripts/forms.js:36-38 | if the browser's message is empty exactly when no native flag is set, then the validation message is empty exactly when the control is valid; a non-empty custom message is what is shown |
| `FormRules.LengthMessage` | scripts/forms.js:69-75 | the too-short/too-long message is non-empty, so it makes the control invalid, and it reports the current length as its first number |
| `FormRules.LengthMessageDeterminesParameters` | scripts/forms.js:71-74 | with a numeric `minlength`, equal length messages have the same current length, the same minimum and the same maximum text, so the message carries all three parameters in order |
| `FormRules.Utf16Length` | scripts/forms.js:71 | `value.length` counts UTF-16 code units: between the number of characters and twice it, and equal to it exactly when every character is in the Basic Multilingual Plane |
| `FormRules.SupplementaryCharactersCountTwice` | scripts/forms.js:71-74 | a too-short value of two characters outside the Basic Multilingual Plane is reported as 4 characters entered |
| `FormRules.CustomError` | scripts/forms.js:62-81 | the message is non-empty iff the control is too short, too long, or a mismatching url; the length rule wins and reports the UTF-16 length of the value; the url rule gives the fixed link message; the message never depends on the previous one |
| `FormRules.LengthRuleOverridesUrlRule` | scripts/forms.js:69-80 | a url control that is also too short or too long gets the length message, never the link message |
| `FormRules.MatchMessage` | scripts/forms.js:97-102 | the confirmation's custom message is non-empty iff the two values differ as exact strings, and it is then the fixed mismatch text |
| `FormRules.ButtonClasses` | scripts/forms.js:48-58 | a valid form removes the invalid class and keeps the valid one, unless the two names are equal; an invalid form has the invalid class and drops the valid one, unless the names are equal; every other class is unchanged |
| `FormRules.ExactlyOneStateClass` | scripts/forms.js:48-58 | with two distinct class names, the button carries exactly one of them, the one that matches validity |
| `FormRules.GuardAsWritten` | scripts/forms.js:85-100 | as written, the rule is skipped only when neither selector is set (absent or empty) or neither control is found; an empty selector beside a set one makes the lookup throw before anything changes; a missing confirmation control leads to a call on null; a missing password control leads to a read from null after the confirmation is cleared |
| `FormRules.Guard` | scripts/forms.js:85-95 | with `&&`, the rule compares values iff both selectors are set (present and non-empty) and both controls are found, and it never reaches a null control |
| `FormRules.GuardsAgreeOnCompletePairs` | scripts/forms.js:85-95 | the written guard and the corrected guard behave the same whenever both or neither of the pair is configured and found |
| `FormRules.OnlyPasswordSelectorDereferencesNull` | scripts/forms.js:85-98 | a configuration with only a non-empty password selector passes the written guard and reaches the null confirmation control; the corrected guard skips it |
| `FormRules.MissingPasswordControlDereferencesNull` | scripts/forms.js:89-100 | with both selectors set and non-empty and no password control found, the written guard clears the confirmation and then reads from null; the corrected guard skips it |
| `FormRules.EmptySelectorThrowsOrSkips` | scripts/forms.js:85-91 | an empty selector beside a non-empty one gets past the written guard and its lookup throws, whatever the form contains; an empty selector alone is read as unset and the rule is skipped; the corrected guard skips every one of these cases |
| `Forms.Form.Query` | scripts/forms.js:90-91 | a control the lookup finds belongs to this form, which is what lets the password rule stay inside the form's frame; an absent selector finds nothing |
| `Forms.Form.CheckValidity` | scripts/forms.js:8 | the result is the conjunction of every control's validity |
| `Forms.Form.Reset` | scripts/forms.js:11 | every control's value is its default afterwards; flags, custom messages and slots are unchanged |
| `Forms.HandleFormSubmit` | scripts/forms.js:2-15 | the outcome is the form's validity before the event; a valid form has every value back at its default; an invalid form keeps every value; no custom message, flag or slot changes either way |
| `Forms.SetFieldError` | scripts/forms.js:33-39 | the control's slot shows its validation message; nothing else changes |
| `Forms.SetSubmitButtonState` | scripts/forms.js:42-58 | the button is disabled iff the form is invalid, and its classes are those given by `ButtonClasses` |
| `Forms.SetCustomError` | scripts/forms.js:62-81 | the control's custom message is `CustomError` of its flags, type, value (its length counted in UTF-16 code units) and attributes; nothing else changes |
| `Forms.ValidatePasswordsMatch` | scripts/forms.js:84-105 | when both controls are present, the confirmation's custom message is `MatchMessage` of the two values and its slot shows its validation message; the password control and every other control are untouched |
| `Forms.ValidatePasswordsMatchAsWritten` | scripts/forms.js:84-105 | the written method throws exactly when an empty selector reaches `querySelector` (nothing changes then) or one control of the pair is missing; a missing password control still leaves the confirmation's custom message cleared (its slot unchanged); when both are present it agrees with the corrected method; no other control changes |
| `Forms.HandleFormInput` | scripts/forms.js:17-30 | the control that fired gets the length/url message unless it is the confirmation, which gets the match message; its slot and the confirmation's slot show their messages; the slot is empty iff the control is valid, given that the browser's message is empty exactly when no native flag is set; other controls keep their messages and slots; the button reflects validity after all messages are set |

## Left out

- Listener registration and start-up (`enableValidation` and the two configuration calls, scripts/forms.js:107-127) are event wiring and document lookups. They are not modelled.
- The alerts on submit are replaced by the boolean that `Forms.HandleFormSubmit` returns. `event.preventDefault()` is not modelled.
- How the browser computes `tooShort`, `tooLong`, `typeMismatch`, the other native flags and the native message is not modelled. They are inputs on each control, already updated for the new value when an input event arrives. They are also not recomputed after `reset()`.
- `querySelector` and `nextElementSibling` are replaced by direct references: the form holds its controls and its button, each control holds its slot text, and `Form.found` maps password selectors to controls. A selector that is absent from the configuration finds nothing.
- `Forms.SetSubmitButtonState`: a button selector that matches nothing, and the TypeError that would follow, are not modelled, because the button is a direct reference.
- `Forms.HandleFormInput` uses the corrected guard. The exception raised by the written guard, which would stop the handler before the slot and button updates, is modelled only in `Forms.ValidatePasswordsMatchAsWritten`.
- The `invalid` events that `checkValidity()` fires are not modelled; nothing listens to them.
- A non-empty selector that is not valid CSS syntax would also make `querySelector` throw; the model treats every non-empty selector as a lookup that finds a control or nothing. The configurations at scripts/forms.js:113-127 use valid selectors.
- The button's class list is a set: the order of class tokens is not modelled.
- Forms.SetSubmitButtonState: `classList.add`/`remove` throw a DOMException for an empty class name or one containing whitespace, after `disabled` has already been changed; the model accepts any class names and always completes, so it does not capture that exception or the half-updated button it leaves (the same holds for `Forms.HandleFormInput`, which calls it).

## Findings

| source | as written | input that shows it | evidently intended | confidence | as-written member | corrected member |
|---|---|---|---|---|---|---|
| scripts/forms.js:85 | `if(!(config.password \|\| config.passwordConfirm)) return;` | a configuration with only a non-empty `password` set, whose control is found: the guard passes and `setCustomValidity` is called on the null confirmation (`FormRules.OnlyPasswordSelectorDereferencesNull`) | skip unless both selectors are set (`&&`) | not executed | `FormRules.GuardAsWritten` | `FormRules.Guard` |
| scripts/forms.js:93 | `if (!(inputPassword \|\| inputPasswordConfirm)) return;` | both selectors set, no password control in the form, confirmation found: the confirmation's message is cleared, then `.value` is read from null (`FormRules.MissingPasswordControlDereferencesNull`) | skip unless both controls are found (`&&`) | not executed | `Forms.ValidatePasswordsMatchAsWritten` | `Forms.ValidatePasswordsMatch` |
