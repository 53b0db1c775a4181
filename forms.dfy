/**
 * The form-validation controller of scripts/forms.js over an abstract form:
 * form controls with their values, native validity flags, custom validity
 * messages and the error slot that follows each of them; one submit button;
 * and the two event handlers that update them in place.
 */
module Forms {
  import opened Wrappers
  import opened FormRules

  /** A form control (an `input`) and the text of the slot that follows it. */
  class Field {
    var value: string
    const defaultValue: string
    const inputType: string
    const minLength: Option<string>
    const maxLength: Option<string>
    /** Computed by the browser from the value and the attributes; an input here. */
    var validity: ValidityState
    /** The browser's own message for the native flags; an input here. */
    var nativeMessage: string
    /** The message set with `setCustomValidity`; "" means none. */
    var customMessage: string
    /** The `textContent` of the element right after the control. */
    var slotText: string

    constructor (defaultValue: string, inputType: string, minLength: Option<string>, maxLength: Option<string>,
                 validity: ValidityState, nativeMessage: string)
      ensures this.value == defaultValue && this.defaultValue == defaultValue
      ensures this.inputType == inputType && this.minLength == minLength && this.maxLength == maxLength
      ensures this.validity == validity && this.nativeMessage == nativeMessage
      ensures customMessage == "" && slotText == ""
    {
      this.value := defaultValue;
      this.defaultValue := defaultValue;
      this.inputType := inputType;
      this.minLength := minLength;
      this.maxLength := maxLength;
      this.validity := validity;
      this.nativeMessage := nativeMessage;
      customMessage := "";
      slotText := "";
    }

    predicate IsValid()
      reads this
    {
      Satisfies(validity, customMessage)
    }

    function Message(): (m: string)
      reads this
    {
      ValidationMessage(customMessage, nativeMessage)
    }

    /** `setCustomValidity(message)`. */
    method SetCustomValidity(message: string)
      modifies this`customMessage
      ensures customMessage == message
    {
      customMessage := message;
    }
  }

  /** The submit button: its `disabled` attribute and its class list. */
  class Button {
    var disabled: bool
    var classes: set<string>

    constructor (disabled: bool, classes: set<string>)
      ensures this.disabled == disabled && this.classes == classes
    {
      this.disabled := disabled;
      this.classes := classes;
    }
  }

  /**
   * The per-form configuration. The form and button selectors are replaced by
   * the references a Form holds; the password selectors stay, and a Form
   * resolves them.
   */
  datatype Config = Config(buttonValid: string, buttonInvalid: string,
                           password: Option<string>, passwordConfirm: Option<string>)

  /** A form: its controls in document order, its submit button, and what its selectors find. */
  class Form {
    const fields: seq<Field>
    const button: Button
    /** The control `querySelector` finds for each selector that matches one. */
    const found: map<string, Field>

    /** What a lookup finds is a control of this form, and no lookup of the empty selector succeeds. */
    ghost predicate Valid() {
      "" !in found && forall selector :: selector in found ==> found[selector] in fields
    }

    constructor (fields: seq<Field>, button: Button, found: map<string, Field>)
      requires "" !in found
      requires forall selector :: selector in found ==> found[selector] in fields
      ensures this.fields == fields && this.button == button && this.found == found
      ensures Valid()
    {
      this.fields := fields;
      this.button := button;
      this.found := found;
    }

    /** `querySelector` on an optional selector; an absent selector finds nothing. */
    function Query(selector: Option<string>): (r: Option<Field>)
      requires Valid()
      ensures r.Some? ==> r.value in fields
      ensures selector.None? ==> r.None?
    {
      if selector.Some? && selector.value in found then Some(found[selector.value]) else None
    }

    /** What the password rule does on this form, with the guard corrected to `&&`. */
    function PasswordStep(config: Config): (step: MatchStep<Field>)
      requires Valid()
    {
      Guard(config.password, config.passwordConfirm, Query(config.password), Query(config.passwordConfirm))
    }

    /** The confirmation control the password rule rewrites on every input event, if any. */
    predicate Refreshes(config: Config, f: Field)
      requires Valid()
    {
      PasswordStep(config).Compare? && PasswordStep(config).confirm == f
    }

    /** Aggregate validity: every control satisfies its constraints. */
    predicate AllValid()
      reads this, fields
    {
      forall i :: 0 <= i < |fields| ==> fields[i].IsValid()
    }

    /** `checkValidity()`: the conjunction of the controls' validity, visiting every control. */
    method CheckValidity() returns (valid: bool)
      ensures valid == AllValid()
    {
      valid := true;
      var i := 0;
      while i < |fields|
        invariant 0 <= i <= |fields|
        invariant valid == forall j :: 0 <= j < i ==> fields[j].IsValid()
      {
        valid := fields[i].IsValid() && valid;
        i := i + 1;
      }
    }

    /** `reset()`: every control's value goes back to its default; nothing else changes. */
    method Reset()
      modifies fields
      ensures forall f :: f in fields ==> f.value == f.defaultValue
      ensures forall f :: f in fields ==> f.validity == old(f.validity) && f.nativeMessage == old(f.nativeMessage)
      ensures forall f :: f in fields ==> f.customMessage == old(f.customMessage) && f.slotText == old(f.slotText)
    {
      var i := 0;
      while i < |fields|
        invariant 0 <= i <= |fields|
        invariant forall j :: 0 <= j < i ==> fields[j].value == fields[j].defaultValue
        invariant forall f :: f in fields ==> f.validity == old(f.validity) && f.nativeMessage == old(f.nativeMessage)
        invariant forall f :: f in fields ==> f.customMessage == old(f.customMessage) && f.slotText == old(f.slotText)
      {
        fields[i].value := fields[i].defaultValue;
        i := i + 1;
      }
    }
  }

  /**
   * `handleFormSubmit`: the form is reset when it is valid and left alone
   * otherwise; the result is what the alert reports.
   */
  method HandleFormSubmit(form: Form) returns (valid: bool)
    modifies form.fields
    ensures valid == old(form.AllValid())
    ensures valid ==> forall f :: f in form.fields ==> f.value == f.defaultValue
    ensures !valid ==> forall f :: f in form.fields ==> f.value == old(f.value)
    ensures forall f :: f in form.fields ==> f.validity == old(f.validity) && f.nativeMessage == old(f.nativeMessage)
    ensures forall f :: f in form.fields ==> f.customMessage == old(f.customMessage) && f.slotText == old(f.slotText)
  {
    valid := form.CheckValidity();
    if valid {
      form.Reset();
    }
  }

  /** `setFieldError`: the slot after the control shows its validation message. */
  method SetFieldError(field: Field)
    modifies field`slotText
    ensures field.slotText == field.Message()
  {
    field.slotText := field.Message();
  }

  /**
   * `setSubmitButtonState`: the button is disabled exactly when the form is
   * invalid, and its valid/invalid classes follow; its other classes stay.
   */
  method SetSubmitButtonState(form: Form, config: Config)
    modifies form.button
    ensures form.button.disabled == !form.AllValid()
    ensures form.button.classes == ButtonClasses(old(form.button.classes), form.AllValid(), config.buttonValid, config.buttonInvalid)
  {
    var button := form.button;
    var valid := form.CheckValidity();
    if valid {
      button.disabled := false;
      button.classes := button.classes + {config.buttonValid};
      button.classes := button.classes - {config.buttonInvalid};
    } else {
      button.disabled := true;
      button.classes := button.classes - {config.buttonValid};
      button.classes := button.classes + {config.buttonInvalid};
    }
  }

  /**
   * `setCustomError`: the custom message is cleared, then set by the length
   * rule or else by the url rule.
   */
  method SetCustomError(input: Field)
    modifies input`customMessage
    ensures input.customMessage == CustomError(input.validity, input.inputType, input.value, input.minLength, input.maxLength)
  {
    var validity := input.validity;
    input.SetCustomValidity("");
    if validity.tooShort || validity.tooLong {
      var current := Utf16Length(input.value);
      var min := input.minLength;
      var max := input.maxLength;
      input.SetCustomValidity(LengthMessage(current, min, max));
    } else if validity.typeMismatch && input.inputType == "url" {
      input.SetCustomValidity(LinkExpected);
    }
  }

  /**
   * `validatePasswordsMatch` with the guards corrected: when both controls
   * are present, the confirmation's custom message is recomputed from the two
   * values and shown in its slot; nothing else changes.
   */
  method ValidatePasswordsMatch(form: Form, config: Config)
    requires form.Valid()
    modifies form.fields
    ensures var step := form.PasswordStep(config);
            step.Compare? ==>
              step.confirm.customMessage == MatchMessage(step.password.value, step.confirm.value) &&
              step.confirm.slotText == step.confirm.Message()
    ensures forall f :: f in form.fields ==>
              f.value == old(f.value) && f.validity == old(f.validity) && f.nativeMessage == old(f.nativeMessage)
    ensures forall f :: f in form.fields && !form.Refreshes(config, f) ==>
              f.customMessage == old(f.customMessage) && f.slotText == old(f.slotText)
  {
    var step := form.PasswordStep(config);
    if step.Compare? {
      var password, confirm := step.password, step.confirm;
      confirm.SetCustomValidity("");
      if password.value != confirm.value {
        confirm.SetCustomValidity(PasswordsDiffer);
      }
      SetFieldError(confirm);
    }
  }

  /**
   * `validatePasswordsMatch` as written, with `||` in both guards: `threw`
   * reports the exception raised: the SyntaxError of `querySelector("")`
   * when an empty selector gets past the first guard, or the TypeError when
   * one control of the pair is missing.
   */
  method ValidatePasswordsMatchAsWritten(form: Form, config: Config) returns (threw: bool)
    requires form.Valid()
    modifies form.fields
    ensures var step := GuardAsWritten(config.password, config.passwordConfirm,
                                       form.Query(config.password), form.Query(config.passwordConfirm));
            (threw <==> step.SelectorSyntaxError? || step.ConfirmNull? || step.PasswordNull?) &&
            (step.PasswordNull? ==> step.confirm.customMessage == "") &&
            (step.Compare? ==>
               step.confirm.customMessage == MatchMessage(step.password.value, step.confirm.value) &&
               step.confirm.slotText == step.confirm.Message())
    ensures forall f :: f in form.fields ==>
              f.value == old(f.value) && f.validity == old(f.validity) && f.nativeMessage == old(f.nativeMessage)
    ensures var step := GuardAsWritten(config.password, config.passwordConfirm,
                                       form.Query(config.password), form.Query(config.passwordConfirm));
            forall f :: f in form.fields && !((step.Compare? || step.PasswordNull?) && f == step.confirm) ==>
              f.customMessage == old(f.customMessage) && f.slotText == old(f.slotText)
    ensures var step := GuardAsWritten(config.password, config.passwordConfirm,
                                       form.Query(config.password), form.Query(config.passwordConfirm));
            step.PasswordNull? ==> step.confirm.slotText == old(step.confirm.slotText)
  {
    var step := GuardAsWritten(config.password, config.passwordConfirm,
                               form.Query(config.password), form.Query(config.passwordConfirm));
    threw := false;
    match step
    case Skip =>
    case SelectorSyntaxError =>
      threw := true;
    case ConfirmNull =>
      threw := true;
    case PasswordNull(confirm) =>
      confirm.SetCustomValidity("");
      threw := true;
    case Compare(password, confirm) =>
      confirm.SetCustomValidity("");
      if password.value != confirm.value {
        confirm.SetCustomValidity(PasswordsDiffer);
      }
      SetFieldError(confirm);
  }

  /**
   * `handleFormInput`: custom error on the control that fired, then the
   * password rule, then the control's slot, then the button. The
   * confirmation control's final custom message comes from the password rule
   * even when it fired the event, and the button reflects validity after
   * every custom message has been set.
   */
  method HandleFormInput(form: Form, input: Field, config: Config)
    requires form.Valid() && input in form.fields
    modifies form.fields, form.button
    ensures !form.Refreshes(config, input) ==>
              input.customMessage == CustomError(input.validity, input.inputType, input.value, input.minLength, input.maxLength)
    ensures var step := form.PasswordStep(config);
            step.Compare? ==>
              step.confirm.customMessage == MatchMessage(step.password.value, step.confirm.value) &&
              step.confirm.slotText == step.confirm.Message()
    ensures input.slotText == input.Message()
    ensures (input.nativeMessage == "" <==> input.validity.NativeValid()) ==> (input.slotText == "" <==> input.IsValid())
    ensures forall f :: f in form.fields && f != input && !form.Refreshes(config, f) ==>
              f.customMessage == old(f.customMessage) && f.slotText == old(f.slotText)
    ensures forall f :: f in form.fields ==>
              f.value == old(f.value) && f.validity == old(f.validity) && f.nativeMessage == old(f.nativeMessage)
    ensures form.button.disabled == !form.AllValid()
    ensures form.button.classes == ButtonClasses(old(form.button.classes), form.AllValid(), config.buttonValid, config.buttonInvalid)
  {
    SetCustomError(input);
    ValidatePasswordsMatch(form, config);
    SetFieldError(input);
    SetSubmitButtonState(form, config);
    if input.nativeMessage == "" <==> input.validity.NativeValid() {
      MessageEmptyIffValid(input.validity, input.customMessage, input.nativeMessage);
    }
  }

  /** A client of the contracts above: a password typed while its confirmation is still empty. */
  method MismatchScenario()
  {
    var clean := ValidityState(false, false, false, false);
    var password := new Field("", "password", None, None, clean, "");
    var confirm := new Field("", "password", None, None, clean, "");
    var button := new Button(true, {"popup__button"});
    var found := map["pw" := password, "pc" := confirm];
    assert "pw" != "" && "pc" != "" && found.Keys == {"pw", "pc"};
    var form := new Form([password, confirm], button, found);
    var config := Config("popup__button_valid", "popup__button_invalid", Some("pw"), Some("pc"));
    assert form.PasswordStep(config) == Compare(password, confirm);

    password.value := "secret1";
    HandleFormInput(form, password, config);
    assert confirm.customMessage == PasswordsDiffer && confirm.slotText == PasswordsDiffer;
    assert !confirm.IsValid() && button.disabled;
    assert "popup__button_invalid" in button.classes && "popup__button" in button.classes;
  }

  /** A client of the contracts above: the confirmation is made to match, and the valid form is submitted. */
  method MatchScenario()
  {
    var clean := ValidityState(false, false, false, false);
    var password := new Field("", "password", None, None, clean, "");
    var confirm := new Field("", "password", None, None, clean, "");
    var button := new Button(true, {"popup__button", "popup__button_invalid"});
    var found := map["pw" := password, "pc" := confirm];
    assert "pw" != "" && "pc" != "" && found.Keys == {"pw", "pc"};
    var form := new Form([password, confirm], button, found);
    var config := Config("popup__button_valid", "popup__button_invalid", Some("pw"), Some("pc"));
    assert form.PasswordStep(config) == Compare(password, confirm);

    password.value := "secret1";
    confirm.value := "secret1";
    HandleFormInput(form, confirm, config);
    assert confirm.customMessage == "" && confirm.slotText == "";
    assert password.customMessage == "";
    assert form.AllValid() && !button.disabled;
    assert "popup__button_valid" in button.classes && "popup__button_invalid" !in button.classes;

    var valid := HandleFormSubmit(form);
    assert valid && password.value == "" && confirm.value == "";
  }
}
