/** The state of the BootstrapPinInput widget (assets/script.js) as a value,
    and one transition function per method of the widget. The class in
    pin_input.dfy is proved to perform exactly these transitions; the lemmas
    in pin_properties.dfy state what they guarantee. */
module PinSpec {
  import opened Wrappers

  datatype Severity = Success | Danger

  /** The message container: hidden, or shown with the alert's text and type. */
  datatype Message = Hidden | Visible(text: string, severity: Severity)

  /** One `.pin-input-field`: its value and its `filled` and `error` classes. */
  datatype Slot = Slot(value: string, filled: bool, error: bool)

  /** Everything the widget's methods read or write.
      - focus: the slot that holds keyboard focus, if any;
      - submitDisabled: the submit button's `disabled` property;
      - loading: the spinner is shown and the button says "Verifying...";
      - verifying: the PINs captured by submissions whose one-second delay
        has not ended yet, oldest first;
      - redirectPending: the navigation to the detail page is scheduled;
      - errorShakes: scheduled batches of "remove the error class" timers;
      - autoHides: scheduled "hide the message" timers. */
  datatype Widget = Widget(
    slots: seq<Slot>,
    focus: Option<nat>,
    submitDisabled: bool,
    message: Message,
    loading: bool,
    verifying: seq<string>,
    redirectPending: bool,
    errorShakes: nat,
    autoHides: nat)

  const CorrectPin: string := "12345"
  const IncompleteText: string := "Silakan lengkapi semua digit PIN"
  const SuccessText: string := "\U{2705} Box found success redirected..."
  const WrongText: string := "\U{274C} The PO number is incorrect."

  predicate IsDigit(c: char) { '0' <= c <= '9' }

  /** The test `/^\d$/`: exactly one ASCII decimal digit. */
  predicate IsDigitString(s: string) { |s| == 1 && IsDigit(s[0]) }

  predicate IsSlotValue(s: string) { s == "" || IsDigitString(s) }

  /** Every slot is empty or one digit, focus is on an existing slot, and
      every PIN awaiting verification was captured complete. */
  predicate WellFormed(w: Widget)
  {
    && (forall i :: 0 <= i < |w.slots| ==> IsSlotValue(w.slots[i].value))
    && (w.focus.Some? ==> w.focus.value < |w.slots|)
    && (forall k :: 0 <= k < |w.verifying| ==> |w.verifying[k]| == |w.slots|)
  }

  predicate AllFilled(slots: seq<Slot>)
  {
    forall i :: 0 <= i < |slots| ==> slots[i].value != ""
  }

  /** The property updateSubmitButton establishes. */
  predicate Synced(w: Widget)
  {
    w.submitDisabled == !AllFilled(w.slots)
  }

  /** The page as loaded: empty slots, nothing focused, nothing scheduled;
      the button's initial `disabled` comes from the markup. */
  function Initial(n: nat, buttonDisabled: bool): Widget
  {
    Widget(seq(n, _ => Slot("", false, false)), None, buttonDisabled, Hidden, false, [], false, 0, 0)
  }

  /** The concatenation of the slot values, `map(...).join('')`. */
  function Pin(slots: seq<Slot>): string
  {
    if |slots| == 0 then "" else Pin(slots[..|slots| - 1]) + slots[|slots| - 1].value
  }

  /** The digits of a text in order, `replace(/\D/g, '')`. */
  function Digits(text: string): string
  {
    if |text| == 0 then ""
    else Digits(text[..|text| - 1]) + (if IsDigit(text[|text| - 1]) then [text[|text| - 1]] else "")
  }

  function Min(a: int, b: int): int { if a <= b then a else b }

  // ---- one function per method of the widget ----

  /** Writing a slot's value (the browser typing into it, or a handler). */
  function SetValue(w: Widget, i: nat, v: string): Widget
    requires i < |w.slots|
  {
    w.(slots := w.slots[i := w.slots[i].(value := v)])
  }

  /** updateInputState: the `filled` class follows the value. */
  function UpdateInputState(w: Widget, i: nat): Widget
    requires i < |w.slots|
  {
    w.(slots := w.slots[i := w.slots[i].(filled := w.slots[i].value != "")])
  }

  function UpdateSubmitButton(w: Widget): Widget
  {
    w.(submitDisabled := !AllFilled(w.slots))
  }

  function ClearError(w: Widget): Widget
  {
    w.(slots := seq(|w.slots|, i requires 0 <= i < |w.slots| => w.slots[i].(error := false)))
  }

  /** showError: every slot shakes, and one batch of 500 ms timers is scheduled. */
  function ShowError(w: Widget): Widget
  {
    w.(slots := seq(|w.slots|, i requires 0 <= i < |w.slots| => w.slots[i].(error := true)),
       errorShakes := w.errorShakes + 1)
  }

  /** showMessage: anything but a danger message schedules a 4 s auto-hide. */
  function ShowMessage(w: Widget, text: string, severity: Severity): Widget
  {
    w.(message := Visible(text, severity),
       autoHides := if severity != Danger then w.autoHides + 1 else w.autoHides)
  }

  function SetLoadingState(w: Widget, loading: bool): Widget
  {
    if loading then w.(submitDisabled := true, loading := true)
    else UpdateSubmitButton(w).(loading := false)
  }

  /** handleInput, as written: the browser has already put `value` in the
      slot; anything but one digit is wiped and the handler returns at once. */
  function Input(w: Widget, index: nat, value: string): Widget
    requires index < |w.slots|
  {
    if !IsDigitString(value) then SetValue(w, index, "")
    else
      var w1 := UpdateInputState(SetValue(w, index, value), index);
      var w2 := if index < |w.slots| - 1 then w1.(focus := Some(index + 1)) else w1;
      ClearError(UpdateSubmitButton(w2))
  }

  /** handleInput with the evidently intended reject path: the wiped slot's
      `filled` class and the submit button are refreshed as well. */
  function InputCorrected(w: Widget, index: nat, value: string): Widget
    requires index < |w.slots|
  {
    if !IsDigitString(value) then UpdateSubmitButton(UpdateInputState(SetValue(w, index, ""), index))
    else Input(w, index, value)
  }

  /** handleSubmit up to its `await`: an incomplete PIN only shows a danger
      message; a complete one enters the loading state and starts the delay. */
  function BeginSubmit(w: Widget): Widget
  {
    var pin := Pin(w.slots);
    if |pin| != |w.slots| then ShowMessage(w, IncompleteText, Danger)
    else SetLoadingState(w, true).(verifying := w.verifying + [pin])
  }

  /** handleSubmit after its `await`, for the oldest pending submission: the
      PIN captured before the delay is compared with the secret. */
  function FinishSubmit(w: Widget): Widget
    requires |w.verifying| > 0
  {
    var pin := w.verifying[0];
    var w1 := w.(verifying := w.verifying[1..]);
    var w2 := if pin == CorrectPin then ShowMessage(w1, SuccessText, Success).(redirectPending := true)
              else ShowError(ShowMessage(w1, WrongText, Danger));
    SetLoadingState(w2, false)
  }

  function Backspace(w: Widget, index: nat): Widget
    requires index < |w.slots|
  {
    if w.slots[index].value == "" && index > 0 then
      UpdateInputState(SetValue(w.(focus := Some(index - 1)), index - 1, ""), index - 1)
    else w
  }

  /** handleKeydown: the four keys it reacts to, then the button refresh. */
  function Keydown(w: Widget, index: nat, key: string): Widget
    requires index < |w.slots|
  {
    var w1 := if key == "Backspace" then Backspace(w, index) else w;
    var w2 := if key == "ArrowLeft" && index > 0 then w1.(focus := Some(index - 1)) else w1;
    var w3 := if key == "ArrowRight" && index < |w.slots| - 1 then w2.(focus := Some(index + 1)) else w2;
    var w4 := if key == "Enter" then BeginSubmit(w3) else w3;
    UpdateSubmitButton(w4)
  }

  /** The slots after pasting `digits` from slot `index` on: the slots that
      exist receive one digit each, the excess is dropped. */
  function PasteSlots(slots: seq<Slot>, index: nat, digits: string): (r: seq<Slot>)
    ensures |r| == |slots|
  {
    seq(|slots|, j requires 0 <= j < |slots| =>
      if index <= j < index + |digits| then slots[j].(value := [digits[j - index]], filled := true)
      else slots[j])
  }

  /** handlePaste. */
  function Paste(w: Widget, index: nat, text: string): Widget
    requires index < |w.slots|
  {
    var d := Digits(text);
    var w1 := w.(slots := PasteSlots(w.slots, index, d));
    var w2 := w1.(focus := Some(Min(index + |d|, |w.slots| - 1)));
    ClearError(UpdateSubmitButton(w2))
  }

  /** clearAll. With no slots, `inputs[0].focus()` throws after the (empty)
      loop, so nothing changes. */
  function ClearAll(w: Widget): Widget
  {
    if |w.slots| == 0 then w
    else UpdateSubmitButton(w.(slots := seq(|w.slots|, _ => Slot("", false, false)), focus := Some(0))).(message := Hidden)
  }

  /** A slot gains focus: the browser moves focus, then the `focus` listener
      clears the error classes. */
  function Focus(w: Widget, index: nat): Widget
    requires index < |w.slots|
  {
    ClearError(w.(focus := Some(index)))
  }

  /** A slot loses focus: the browser drops focus, then the `blur` listener
      refreshes its `filled` class. */
  function Blur(w: Widget, index: nat): Widget
    requires index < |w.slots|
  {
    UpdateInputState(w.(focus := if w.focus == Some(index) then None else w.focus), index)
  }

  /** One batch of showError's timers fires. */
  function ExpireErrorShake(w: Widget): Widget
    requires w.errorShakes > 0
  {
    ClearError(w).(errorShakes := w.errorShakes - 1)
  }

  /** One of showMessage's auto-hide timers fires; it hides whatever message
      is shown by then. */
  function ExpireAutoHide(w: Widget): Widget
    requires w.autoHides > 0
  {
    w.(message := Hidden, autoHides := w.autoHides - 1)
  }

  // ---- the handler table wired by init() ----

  datatype Event =
    | Typed(index: nat, value: string)
    | KeyDown(index: nat, key: string)
    | Pasted(index: nat, text: string)
    | Focused(index: nat)
    | Blurred(index: nat)
    | SubmitClicked
    | DelayElapsed
    | ErrorShakeElapsed
    | AutoHideElapsed
    | ClearAllCalled

  /** clearAll is wired to no control on the page; ClearAllCalled stands for
      an outside caller. */

  /** When the browser can deliver an event: slot events name an existing
      slot, a disabled button receives no clicks, a timer fires only if it was
      scheduled. */
  predicate Enabled(w: Widget, e: Event)
  {
    match e
    case Typed(i, _) => i < |w.slots|
    case KeyDown(i, _) => i < |w.slots|
    case Pasted(i, _) => i < |w.slots|
    case Focused(i) => i < |w.slots|
    case Blurred(i) => i < |w.slots|
    case SubmitClicked => !w.submitDisabled
    case DelayElapsed => |w.verifying| > 0
    case ErrorShakeElapsed => w.errorShakes > 0
    case AutoHideElapsed => w.autoHides > 0
    case ClearAllCalled => true
  }

  function StepWith(w: Widget, e: Event, corrected: bool): Widget
    requires Enabled(w, e)
  {
    match e
    case Typed(i, v) => if corrected then InputCorrected(w, i, v) else Input(w, i, v)
    case KeyDown(i, k) => Keydown(w, i, k)
    case Pasted(i, t) => Paste(w, i, t)
    case Focused(i) => Focus(w, i)
    case Blurred(i) => Blur(w, i)
    case SubmitClicked => BeginSubmit(w)
    case DelayElapsed => FinishSubmit(w)
    case ErrorShakeElapsed => ExpireErrorShake(w)
    case AutoHideElapsed => ExpireAutoHide(w)
    case ClearAllCalled => ClearAll(w)
  }

  /** The widget as written. */
  function Step(w: Widget, e: Event): Widget
    requires Enabled(w, e)
  {
    StepWith(w, e, false)
  }

  /** The widget with the corrected input handler. */
  function StepCorrected(w: Widget, e: Event): Widget
    requires Enabled(w, e)
  {
    StepWith(w, e, true)
  }
}
