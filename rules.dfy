/**
 * The decisions the form-validation controller makes, stated over values:
 * the constraint-validation model of a form control (section 4.10.20 of the
 * WHATWG HTML Living Standard), the custom-message rules of `setCustomError`
 * and `validatePasswordsMatch`, the class toggling of `setSubmitButtonState`,
 * and the guard that decides whether the password rule runs.
 */
module FormRules {
  import opened Wrappers
  import Decimal

  /** The native flags of a control's ValidityState that the controller reads. */
  datatype ValidityState = ValidityState(tooShort: bool, tooLong: bool, typeMismatch: bool, otherNative: bool)
  {
    /** No native constraint is violated. */
    predicate NativeValid() {
      !tooShort && !tooLong && !typeMismatch && !otherNative
    }
  }

  /** A control satisfies its constraints: no native flag and no custom validity message. */
  predicate Satisfies(validity: ValidityState, customMessage: string) {
    validity.NativeValid() && customMessage == ""
  }

  /** `validationMessage`: the custom message when one is set, otherwise the browser's own. */
  function ValidationMessage(customMessage: string, nativeMessage: string): (m: string) {
    if customMessage != "" then customMessage else nativeMessage
  }

  /**
   * The browser's message is empty exactly when no native flag is set; then
   * the message shown in a slot is empty exactly when the control is valid.
   */
  lemma MessageEmptyIffValid(validity: ValidityState, customMessage: string, nativeMessage: string)
    requires nativeMessage == "" <==> validity.NativeValid()
    ensures ValidationMessage(customMessage, nativeMessage) == "" <==> Satisfies(validity, customMessage)
    ensures customMessage != "" ==> ValidationMessage(customMessage, nativeMessage) == customMessage
  {
  }

  // The fixed texts the controller writes.
  const LengthLead := "Строка слишком короткая. Введено "
  const LengthMiddle := " символов, а должно быть от "
  const LengthJoin := " до "
  const LinkExpected := "Здесь должна быть ссылка"
  const PasswordsDiffer := "Пароли не совпадают!"

  /** How a template literal renders the result of `getAttribute`: `null` when the attribute is absent. */
  function AttributeText(attribute: Option<string>): (text: string) {
    match attribute
    case Some(t) => t
    case None => "null"
  }

  /** The number a length message reports as the count of characters entered, if it is one. */
  function ReportedLength(message: string): (n: Option<nat>) {
    if |LengthLead| <= |message| && message[..|LengthLead|] == LengthLead then
      var digits := Decimal.LeadingDigits(message[|LengthLead|..]);
      if digits == [] then None else Some(Decimal.Value(digits))
    else
      None
  }

  /** The part of a length message that reports the current length. */
  function LengthHead(current: nat): (head: string) {
    LengthLead + Decimal.FromNat(current) + LengthMiddle
  }

  /**
   * The too-short/too-long message: the current length, then the `minlength`
   * and `maxlength` attribute texts, in that order.
   */
  function LengthMessage(current: nat, min: Option<string>, max: Option<string>): (m: string)
    ensures m != ""
    ensures ReportedLength(m) == Some(current)
  {
    LengthMessageReportsLength(current, AttributeText(min) + (LengthJoin + AttributeText(max)));
    LengthHead(current) + (AttributeText(min) + (LengthJoin + AttributeText(max)))
  }

  lemma LengthMessageReportsLength(current: nat, tail: string)
    ensures ReportedLength(LengthHead(current) + tail) == Some(current)
  {
    var numeral := Decimal.FromNat(current);
    var m := LengthHead(current) + tail;
    assert m == LengthLead + (numeral + (LengthMiddle + tail));
    assert m[..|LengthLead|] == LengthLead;
    assert m[|LengthLead|..] == numeral + (LengthMiddle + tail);
    Decimal.LeadingDigitsOfNumeral(numeral, LengthMiddle + tail);
    Decimal.ValueOfFromNat(current);
  }

  lemma DropCommonPrefix(prefix: string, a: string, b: string)
    requires prefix + a == prefix + b
    ensures a == b
  {
    assert a == (prefix + a)[|prefix|..];
    assert b == (prefix + b)[|prefix|..];
  }

  /**
   * The length message carries its parameters recoverably: when the
   * `minlength` attribute is a numeral, two equal messages report the same
   * current length, the same minimum and the same maximum text.
   */
  lemma {:induction false} LengthMessageDeterminesParameters(
    current1: nat, min1: string, max1: Option<string>,
    current2: nat, min2: string, max2: Option<string>)
    requires Decimal.AllDigits(min1) && Decimal.AllDigits(min2)
    requires LengthMessage(current1, Some(min1), max1) == LengthMessage(current2, Some(min2), max2)
    ensures current1 == current2 && min1 == min2 && AttributeText(max1) == AttributeText(max2)
  {
    var m := LengthMessage(current1, Some(min1), max1);
    assert Some(current1) == ReportedLength(m) == Some(current2);
    var tail1 := LengthJoin + AttributeText(max1);
    var tail2 := LengthJoin + AttributeText(max2);
    DropCommonPrefix(LengthHead(current1), min1 + tail1, min2 + tail2);
    Decimal.LeadingDigitsOfNumeral(min1, tail1);
    Decimal.LeadingDigitsOfNumeral(min2, tail2);
    DropCommonPrefix(min1, tail1, tail2);
    DropCommonPrefix(LengthJoin, AttributeText(max1), AttributeText(max2));
  }

  /**
   * `value.length` of a JavaScript string: the number of UTF-16 code units, so
   * a character outside the Basic Multilingual Plane counts twice.
   */
  function Utf16Length(value: string): (n: nat)
    ensures |value| <= n <= 2 * |value|
    ensures n == |value| <==> forall i :: 0 <= i < |value| ==> value[i] as int < 0x1_0000
  {
    if value == [] then 0
    else (if value[0] as int < 0x1_0000 then 1 else 2) + Utf16Length(value[1..])
  }

  /** Two characters outside the Basic Multilingual Plane are reported as a length of four. */
  lemma SupplementaryCharactersCountTwice(min: Option<string>, max: Option<string>)
    ensures Utf16Length("\U{1F600}\U{1F600}") == 4
    ensures ReportedLength(CustomError(ValidityState(true, false, false, false), "text", "\U{1F600}\U{1F600}", min, max)) == Some(4)
  {
  }

  /**
   * The custom message `setCustomError` leaves on a control: the length rule
   * first, then the url rule, otherwise none. It never depends on the message
   * that was set before.
   */
  function CustomError(validity: ValidityState, inputType: string, value: string,
                       min: Option<string>, max: Option<string>): (m: string)
    ensures m != "" <==> validity.tooShort || validity.tooLong || (validity.typeMismatch && inputType == "url")
    ensures validity.tooShort || validity.tooLong ==>
              m == LengthMessage(Utf16Length(value), min, max) && ReportedLength(m) == Some(Utf16Length(value))
    ensures !validity.tooShort && !validity.tooLong && validity.typeMismatch && inputType == "url" ==> m == LinkExpected
  {
    if validity.tooShort || validity.tooLong then
      LengthMessage(Utf16Length(value), min, max)
    else if validity.typeMismatch && inputType == "url" then
      LinkExpected
    else
      ""
  }

  /** The length rule has priority: a url field that is also too short or too long reports its length. */
  lemma LengthRuleOverridesUrlRule(validity: ValidityState, value: string, min: Option<string>, max: Option<string>)
    requires validity.typeMismatch && (validity.tooShort || validity.tooLong)
    ensures CustomError(validity, "url", value, min, max) != LinkExpected
    ensures ReportedLength(CustomError(validity, "url", value, min, max)) == Some(Utf16Length(value))
  {
    assert |LinkExpected| < |LengthLead|;
  }

  /** The confirmation control's custom message: set exactly when the two values differ, compared as they are. */
  function MatchMessage(password: string, confirmation: string): (m: string)
    ensures m != "" <==> password != confirmation
    ensures m == "" || m == PasswordsDiffer
  {
    if password != confirmation then PasswordsDiffer else ""
  }

  /**
   * The button's class set after `setSubmitButtonState`: on a valid form the
   * valid class is added and then the invalid class removed, on an invalid form
   * the valid class is removed and then the invalid class added.
   */
  function ButtonClasses(classes: set<string>, formValid: bool, validClass: string, invalidClass: string): (r: set<string>)
    ensures formValid ==> invalidClass !in r && (validClass in r <==> validClass != invalidClass)
    ensures !formValid ==> invalidClass in r && (validClass in r <==> validClass == invalidClass)
    ensures forall c :: c != validClass && c != invalidClass ==> (c in r <==> c in classes)
  {
    if formValid then classes + {validClass} - {invalidClass} else classes - {validClass} + {invalidClass}
  }

  /** With two distinct class names the button carries exactly one of them, the one that matches validity. */
  lemma ExactlyOneStateClass(classes: set<string>, formValid: bool, validClass: string, invalidClass: string)
    requires validClass != invalidClass
    ensures var r := ButtonClasses(classes, formValid, validClass, invalidClass);
            (validClass in r <==> formValid) && (invalidClass in r <==> !formValid)
  {
  }

  /**
   * Whether a selector in the configuration is set, as JavaScript reads it:
   * an absent property (`undefined`) and the empty string are both falsy.
   */
  predicate Configured(selector: Option<string>) {
    selector.Some? && selector.value != ""
  }

  /**
   * What the password rule does with a pair of optional selectors and the
   * controls they resolved to (`None` standing for a missing selector or a
   * `null` lookup).
   */
  datatype MatchStep<F> =
    | Skip                            // the rule returns early, nothing changes
    | Compare(password: F, confirm: F) // both controls present: the values are compared
    | SelectorSyntaxError              // `querySelector("")` throws before anything changes
    | ConfirmNull                      // `setCustomValidity` is called on a null confirmation control
    | PasswordNull(confirm: F)         // the confirmation is cleared, then `.value` is read from a null password control

  /**
   * The guards as written, with `||`: a half-configured or half-resolved pair
   * gets through. An empty selector counts as unset at the first guard but,
   * once the guard is passed, makes the lookup of that selector throw.
   */
  function GuardAsWritten<F>(passwordSelector: Option<string>, confirmSelector: Option<string>,
                             password: Option<F>, confirm: Option<F>): (step: MatchStep<F>)
    ensures step.SelectorSyntaxError? <==>
              (Configured(passwordSelector) || Configured(confirmSelector)) &&
              (passwordSelector == Some("") || confirmSelector == Some(""))
    ensures step.Skip? <==>
              !(Configured(passwordSelector) || Configured(confirmSelector)) ||
              (passwordSelector != Some("") && confirmSelector != Some("") && password.None? && confirm.None?)
    ensures step.ConfirmNull? ==> password.Some? && confirm.None?
    ensures step.PasswordNull? ==> password.None? && Some(step.confirm) == confirm
    ensures step.Compare? ==> Some(step.password) == password && Some(step.confirm) == confirm
    ensures (step.ConfirmNull? || step.PasswordNull? || step.Compare?) ==>
              Configured(passwordSelector) || Configured(confirmSelector)
  {
    if !(Configured(passwordSelector) || Configured(confirmSelector)) then Skip
    else if passwordSelector == Some("") || confirmSelector == Some("") then SelectorSyntaxError
    else if !(password.Some? || confirm.Some?) then Skip
    else if confirm.None? then ConfirmNull
    else if password.None? then PasswordNull(confirm.value)
    else Compare(password.value, confirm.value)
  }

  /** The guards with `&&`: the rule runs only when both selectors are configured and both controls are found. */
  function Guard<F>(passwordSelector: Option<string>, confirmSelector: Option<string>,
                    password: Option<F>, confirm: Option<F>): (step: MatchStep<F>)
    ensures step.Skip? || step.Compare?
    ensures step.Compare? <==> Configured(passwordSelector) && Configured(confirmSelector) && password.Some? && confirm.Some?
    ensures step.Compare? ==> Some(step.password) == password && Some(step.confirm) == confirm
  {
    if !(Configured(passwordSelector) && Configured(confirmSelector)) then Skip
    else if !(password.Some? && confirm.Some?) then Skip
    else Compare(password.value, confirm.value)
  }

  /**
   * The two guards agree whenever the pair is complete or absent: a control is
   * found only through a configured selector, both selectors or neither are
   * configured, and both controls or neither are found.
   */
  lemma GuardsAgreeOnCompletePairs<F>(passwordSelector: Option<string>, confirmSelector: Option<string>,
                                      password: Option<F>, confirm: Option<F>)
    requires password.Some? ==> Configured(passwordSelector)
    requires confirm.Some? ==> Configured(confirmSelector)
    requires Configured(passwordSelector) <==> Configured(confirmSelector)
    requires password.Some? <==> confirm.Some?
    ensures GuardAsWritten(passwordSelector, confirmSelector, password, confirm)
         == Guard(passwordSelector, confirmSelector, password, confirm)
  {
  }

  /** A configuration naming only the password selector gets past the guards and dereferences null. */
  lemma OnlyPasswordSelectorDereferencesNull<F>(selector: string, password: F)
    requires selector != ""
    ensures GuardAsWritten(Some(selector), None, Some(password), None) == ConfirmNull
    ensures Guard(Some(selector), None, Some(password), None) == Skip
  {
  }

  /** Both selectors configured but the password control missing: the confirmation is cleared, then null is read. */
  lemma MissingPasswordControlDereferencesNull<F>(passwordSelector: string, confirmSelector: string, confirm: F)
    requires passwordSelector != "" && confirmSelector != ""
    ensures GuardAsWritten(Some(passwordSelector), Some(confirmSelector), None, Some(confirm)) == PasswordNull(confirm)
    ensures Guard(Some(passwordSelector), Some(confirmSelector), None, Some(confirm)) == Skip
  {
  }

  /**
   * An empty selector beside a configured one passes the first guard, and
   * its lookup throws before the confirmation is touched, whatever is found.
   * An empty selector on its own is read as unset.
   */
  lemma EmptySelectorThrowsOrSkips<F>(other: string, password: Option<F>, confirm: Option<F>)
    requires other != ""
    ensures GuardAsWritten(Some(""), Some(other), password, confirm) == SelectorSyntaxError
    ensures GuardAsWritten(Some(other), Some(""), password, confirm) == SelectorSyntaxError
    ensures GuardAsWritten(Some(""), None, password, confirm) == Skip
    ensures GuardAsWritten(None, Some(""), password, confirm) == Skip
    ensures Guard(Some(""), Some(other), password, confirm) == Skip
    ensures Guard(Some(other), Some(""), password, confirm) == Skip
    ensures Guard(Some(""), None, password, confirm) == Skip && Guard(None, Some(""), password, confirm) == Skip
  {
  }
}
