/** The BootstrapPinInput class of assets/script.js: the slot elements are an
    array of Slot records, the button, message container and spinner are
    fields. Every method is proved to perform the transition of the same
    name in PinSpec, whose guarantees are proved in PinProperties. */
module PinController {
  import opened Wrappers
  import opened PinSpec
  import PinProperties

  class PinInput {
    /** The `.pin-input-field` elements, in page order. */
    const inputs: array<Slot>
    var focus: Option<nat>
    var submitDisabled: bool
    var message: Message
    var loading: bool
    var verifying: seq<string>
    var redirectPending: bool
    var errorShakes: nat
    var autoHides: nat

    /** The widget's abstract state. */
    ghost function State(): Widget
      reads this, inputs
    {
      Widget(inputs[..], focus, submitDisabled, message, loading, verifying,
             redirectPending, errorShakes, autoHides)
    }

    ghost predicate Valid()
      reads this, inputs
    {
      WellFormed(State())
    }

    /** The page as loaded, with `n` slot elements; `buttonDisabled` is the
        button's state in the markup. */
    constructor (n: nat, buttonDisabled: bool)
      ensures Valid() && fresh(inputs)
      ensures State() == Initial(n, buttonDisabled)
    {
      inputs := new Slot[n](_ => Slot("", false, false));
      focus := None;
      submitDisabled := buttonDisabled;
      message := Hidden;
      loading := false;
      verifying := [];
      redirectPending := false;
      errorShakes := 0;
      autoHides := 0;
    }

    method UpdateInputState(i: nat)
      requires Valid() && i < inputs.Length
      modifies inputs
      ensures Valid() && State() == PinSpec.UpdateInputState(old(State()), i)
    {
      inputs[i] := inputs[i].(filled := inputs[i].value != "");
    }

    /** `every(input => input.value !== '')`, stopping at the first empty slot. */
    method UpdateSubmitButton()
      requires Valid()
      modifies this
      ensures Valid() && State() == PinSpec.UpdateSubmitButton(old(State()))
    {
      var allFilled := true;
      var i := 0;
      while i < inputs.Length && allFilled
        invariant 0 <= i <= inputs.Length
        invariant allFilled <==> forall j :: 0 <= j < i ==> inputs[j].value != ""
      {
        allFilled := inputs[i].value != "";
        i := i + 1;
      }
      submitDisabled := !allFilled;
    }

    method ClearError()
      requires Valid()
      modifies inputs
      ensures Valid() && State() == PinSpec.ClearError(old(State()))
    {
      for i := 0 to inputs.Length
        invariant forall j :: 0 <= j < i ==> inputs[j] == old(inputs[j]).(error := false)
        invariant forall j :: i <= j < inputs.Length ==> inputs[j] == old(inputs[j])
      {
        inputs[i] := inputs[i].(error := false);
      }
    }

    /** Every slot gets the `error` class; their removal 500 ms later is
        ExpireErrorShake. */
    method ShowError()
      requires Valid()
      modifies this, inputs
      ensures Valid() && State() == PinSpec.ShowError(old(State()))
    {
      for i := 0 to inputs.Length
        modifies inputs
        invariant forall j :: 0 <= j < i ==> inputs[j] == old(inputs[j]).(error := true)
        invariant forall j :: i <= j < inputs.Length ==> inputs[j] == old(inputs[j])
      {
        inputs[i] := inputs[i].(error := true);
      }
      errorShakes := errorShakes + 1;
    }

    method ShowMessage(text: string, severity: Severity)
      requires Valid()
      modifies this
      ensures Valid() && State() == PinSpec.ShowMessage(old(State()), text, severity)
    {
      message := Visible(text, severity);
      if severity != Danger {
        autoHides := autoHides + 1;
      }
    }

    method SetLoadingState(isLoading: bool)
      requires Valid()
      modifies this
      ensures Valid() && State() == PinSpec.SetLoadingState(old(State()), isLoading)
    {
      if isLoading {
        submitDisabled := true;
        loading := true;
      } else {
        UpdateSubmitButton();
        loading := false;
      }
    }

    /** The `input` event on slot `index`: the browser has put `value` there. */
    method HandleInput(index: nat, value: string)
      requires Valid() && index < inputs.Length
      modifies this, inputs
      ensures Valid() && State() == Input(old(State()), index, value)
    {
      if !IsDigitString(value) {
        inputs[index] := inputs[index].(value := "");
        return;
      }
      inputs[index] := inputs[index].(value := value);
      UpdateInputState(index);
      if index < inputs.Length - 1 {
        focus := Some(index + 1);
      }
      UpdateSubmitButton();
      ClearError();
    }

    /** handleInput with the reject path also refreshing the slot's class and
        the button (see InputRejectBreaksGate). */
    method HandleInputCorrected(index: nat, value: string)
      requires Valid() && index < inputs.Length
      modifies this, inputs
      ensures Valid() && State() == InputCorrected(old(State()), index, value)
      ensures Synced(State())
    {
      if !IsDigitString(value) {
        inputs[index] := inputs[index].(value := "");
        UpdateInputState(index);
        UpdateSubmitButton();
        return;
      }
      HandleInput(index, value);
      PinProperties.InputAccepted(old(State()), index, value);
    }

    /** `map(input => input.value).join('')`. */
    method CollectPin() returns (pin: string)
      requires Valid()
      ensures pin == Pin(inputs[..])
      ensures |pin| == inputs.Length <==> AllFilled(inputs[..])
    {
      pin := "";
      for i := 0 to inputs.Length
        invariant pin == Pin(inputs[..i])
      {
        assert inputs[..i + 1][..i] == inputs[..i];
        pin := pin + inputs[i].value;
      }
      assert inputs[..inputs.Length] == inputs[..];
      PinProperties.PinLength(inputs[..]);
    }

    /** handleSubmit up to the `await` of its one-second delay. */
    method BeginSubmit()
      requires Valid()
      modifies this
      ensures Valid() && State() == PinSpec.BeginSubmit(old(State()))
    {
      var pin := CollectPin();
      if |pin| != inputs.Length {
        ShowMessage(IncompleteText, Danger);
        return;
      }
      SetLoadingState(true);
      verifying := verifying + [pin];
    }

    /** handleSubmit after the delay of its oldest pending call. */
    method FinishSubmit()
      requires Valid() && |verifying| > 0
      modifies this, inputs
      ensures Valid() && State() == PinSpec.FinishSubmit(old(State()))
    {
      var pin := verifying[0];
      verifying := verifying[1..];
      if pin == CorrectPin {
        ShowMessage(SuccessText, Success);
        redirectPending := true;
      } else {
        ShowMessage(WrongText, Danger);
        ShowError();
      }
      SetLoadingState(false);
    }

    method HandleKeydown(index: nat, key: string)
      requires Valid() && index < inputs.Length
      modifies this, inputs
      ensures Valid() && State() == Keydown(old(State()), index, key)
    {
      if key == "Backspace" {
        if inputs[index].value == "" && index > 0 {
          focus := Some(index - 1);
          inputs[index - 1] := inputs[index - 1].(value := "");
          UpdateInputState(index - 1);
        }
      }
      if key == "ArrowLeft" && index > 0 {
        focus := Some(index - 1);
      }
      if key == "ArrowRight" && index < inputs.Length - 1 {
        focus := Some(index + 1);
      }
      if key == "Enter" {
        BeginSubmit();
      }
      UpdateSubmitButton();
    }

    method HandlePaste(index: nat, text: string)
      requires Valid() && index < inputs.Length
      modifies this, inputs
      ensures Valid() && State() == Paste(old(State()), index, text)
    {
      var digits := Digits(text);
      PinProperties.DigitsAreDigits(text);
      for i := 0 to |digits|
        modifies inputs
        invariant Valid()
        invariant forall j :: 0 <= j < inputs.Length ==>
          inputs[j] == PasteSlots(old(inputs[..]), index, digits[..i])[j]
      {
        if index + i < inputs.Length {
          inputs[index + i] := inputs[index + i].(value := [digits[i]]);
          UpdateInputState(index + i);
        }
      }
      assert digits[..|digits|] == digits;
      assert inputs[..] == PasteSlots(old(inputs[..]), index, digits);
      focus := Some(Min(index + |digits|, inputs.Length - 1));
      UpdateSubmitButton();
      ClearError();
    }

    /** clearAll; `ok` is false when `inputs[0].focus()` throws because there
        are no slots, which ends the method before anything changes. */
    method ClearAll() returns (ok: bool)
      requires Valid()
      modifies this, inputs
      ensures ok <==> inputs.Length > 0
      ensures Valid() && State() == PinSpec.ClearAll(old(State()))
    {
      for i := 0 to inputs.Length
        modifies inputs
        invariant forall j :: 0 <= j < i ==> inputs[j] == Slot("", false, false)
        invariant forall j :: i <= j < inputs.Length ==> inputs[j] == old(inputs[j])
      {
        inputs[i] := Slot("", false, false);
      }
      assert inputs[..] == seq(inputs.Length, _ => Slot("", false, false));
      if inputs.Length == 0 {
        return false;
      }
      focus := Some(0);
      UpdateSubmitButton();
      message := Hidden;
      return true;
    }

    /** The browser focuses slot `index`; the `focus` listener clears errors. */
    method OnFocus(index: nat)
      requires Valid() && index < inputs.Length
      modifies this, inputs
      ensures Valid() && State() == Focus(old(State()), index)
    {
      focus := Some(index);
      ClearError();
    }

    /** Slot `index` loses focus; the `blur` listener refreshes its class. */
    method OnBlur(index: nat)
      requires Valid() && index < inputs.Length
      modifies this, inputs
      ensures Valid() && State() == Blur(old(State()), index)
    {
      if focus == Some(index) {
        focus := None;
      }
      UpdateInputState(index);
    }

    /** One batch of showError's 500 ms timers fires. */
    method ExpireErrorShake()
      requires Valid() && errorShakes > 0
      modifies this, inputs
      ensures Valid() && State() == PinSpec.ExpireErrorShake(old(State()))
    {
      ClearError();
      errorShakes := errorShakes - 1;
    }

    /** One of showMessage's 4 s timers fires. */
    method ExpireAutoHide()
      requires Valid() && autoHides > 0
      modifies this
      ensures Valid() && State() == PinSpec.ExpireAutoHide(old(State()))
    {
      message := Hidden;
      autoHides := autoHides - 1;
    }
  }
}
