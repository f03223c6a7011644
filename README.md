# PIN input widget of Lonely-Hearts, in Dafny

This project models the page script `assets/script.js`. It covers two parts:

- the `BootstrapPinInput` widget: N single-digit input fields, a submit button, a message box, a spinner and a hard-coded secret `'12345'`;
- the pure helper `getOrdinal`, which the date display uses.

The model has five modules:

- `Wrappers` (wrappers.dfy) holds the `Option` type shared by the others.
- `PinSpec` (pin_spec.dfy) holds the widget's whole state as one value, `Widget`. It has one transition function per method of the class, plus `Step`, the table of the event handlers that `init()` wires up.
- `PinProperties` (pin_properties.dfy) proves what those transitions guarantee: the effect of each handler, the outcomes of a submission, the reset, and the invariants every event keeps.
- `PinController` (pin_input.dfy) is the class itself. The input elements are an `array<Slot>`, and the button, message, spinner and timers are fields. Each method is proved to change the state exactly as its `PinSpec` function does (`State() == PinSpec.X(old(State()), …)`) and to keep `Valid()`.
- `Ordinal` (ordinal.dfy) models `getOrdinal` with JavaScript's `%` and its out-of-range array reads.

How browser features are modelled:

- Focus is a slot index (`Option<nat>`), and each CSS class is a boolean.
- `handleSubmit` stops at its `await`, so it is split into two steps. `BeginSubmit` runs the code before the delay and queues the PIN it read. `FinishSubmit` compares the oldest queued PIN with the secret once the delay ends.
- Each timer is a counter of pending callbacks, and each callback is a step of its own: the error shake (`errorShakes`) and the auto-hide of non-danger messages (`autoHides`). The redirect is only a flag, `redirectPending`.

Some behaviours of the code are reproduced and proved as they are:

- `handleSubmit` compares the PIN it read before the delay. Slots edited during the delay do not change the outcome.
- Enter calls `handleSubmit` and then `updateSubmitButton`. This enables the button again while the spinner shows, so a second submission can start (`EnterReenablesButton`). Pending submissions are therefore a FIFO queue.
- An auto-hide timer hides whatever message is showing when it fires.
- The button rule (enabled only when every slot holds a digit, or disabled while the spinner shows) holds at load only because the markup's button starts disabled. `InitialGate` proves that with at least one slot the loaded page meets the rule exactly when the button starts disabled.
- `clearAll` on a widget with no slots throws at `inputs[0].focus()` and changes nothing.
- `getOrdinal` gives "th" for every negative number. For n >= 0 its first table read also hits at `v = 0`, through JavaScript's `-0`, and at `v = 10`. For negative n it also hits at `v = -10, -20, …, -90`, again through `-0`. Every such hit gives `s[0]`, the same as the fallback.

## Model

| member | source | states |
|---|---|---|
| `Ordinal.JsRem` | assets/script.js:192 | The remainder has the dividend's sign, and its magnitude is the magnitude of the dividend mod the magnitude of the divisor (truncating `%`). |
| `Ordinal.GetOrdinal` | assets/script.js:190-194 | The result is always one of "th", "st", "nd", "rd". |
| `Ordinal.FirstLookupBelowTwenty` | assets/script.js:193 | For 0 <= v < 20 the first read hits only at v = 0 and v = 10, and then gives "th". |
| `Ordinal.FirstLookupFromTwenty` | assets/script.js:193 | For 20 <= v < 100 the first read's index is the last digit of v. |
| `Ordinal.GetOrdinalIsEnglish` | assets/script.js:190-194 | For every n >= 0 the result is the English suffix: "th" for 11-13 mod 100, otherwise st/nd/rd for a last digit of 1/2/3, otherwise "th". |
| `Ordinal.GetOrdinalNegative` | assets/script.js:190-194 | Every negative n gets "th". |
| `Ordinal.GetOrdinalSt` | assets/script.js:190-194 | The result is "st" iff n >= 0, n ends in 1 and n mod 100 is not 11. |
| `Ordinal.GetOrdinalNd` | assets/script.js:190-194 | The result is "nd" iff n >= 0, n ends in 2 and n mod 100 is not 12. |
| `Ordinal.GetOrdinalRd` | assets/script.js:190-194 | The result is "rd" iff n >= 0, n ends in 3 and n mod 100 is not 13. |
| `Ordinal.DaysOfMonth` | assets/script.js:190-194 | Days 1, 21, 31 get "st"; 2, 22 get "nd"; 3, 23 get "rd"; every other day of a month gets "th". |
| `PinProperties.PinLength` | assets/script.js:113-115 | When every slot is empty or one digit, the joined PIN is at most N long. It is exactly N long iff every slot is filled, and then it spells the slots' digits in order. |
| `PinProperties.DigitsAreDigits` | assets/script.js:80 | Stripping non-digits leaves only digits and never lengthens the text. |
| `PinProperties.DigitsAppend` | assets/script.js:80 | Stripping a concatenation gives the concatenation of the stripped parts, so the digits keep their order. |
| `PinProperties.DigitsOfDigitText` | assets/script.js:80 | A text made only of digits is left unchanged. |
| `PinProperties.InputRejected` | assets/script.js:31-34 | Input that is not exactly one digit empties that slot, and it changes nothing else: not its classes, not the other slots, not focus, not the button, not the message, not the loading state. |
| `PinProperties.InputAccepted` | assets/script.js:37-45 | A single digit is stored and marked filled. Focus moves to the next slot unless this is the last slot, where it stays. The button matches the slots, every error class is removed, and the other slots keep their values. |
| `PinProperties.BackspaceOnEmpty` | assets/script.js:50-55 | Backspace on an empty slot i > 0 focuses slot i-1 and empties it. Every other slot is unchanged, and the button matches the slots. |
| `PinProperties.BackspaceElsewhere` | assets/script.js:50-56 | Backspace on slot 0, or on a filled slot, is exactly `updateSubmitButton`: no slot, no focus, no message, no loading state, no queue and no timer changes, and the button matches the slots. |
| `PinProperties.ArrowKeys` | assets/script.js:59-66 | ArrowLeft and ArrowRight move focus by one when a slot exists in that direction and change no slot. |
| `PinProperties.OtherKeys` | assets/script.js:48-75 | Any other key only refreshes the button. |
| `PinProperties.KeydownSyncs` | assets/script.js:74 | After any key, the button is disabled iff some slot is empty. |
| `PinProperties.EnterReenablesButton` | assets/script.js:69-74 | Enter on a complete PIN queues that PIN and turns loading on, yet leaves the button enabled. |
| `PinProperties.PasteDistributes` | assets/script.js:79-92 | The k digits of the text fill slots index..min(index+k, N)-1 in order and mark them filled. All other slots keep their values. Focus becomes min(index+k, N-1), no slot keeps an error class, and the button matches the slots. |
| `PinProperties.PasteExample` | assets/script.js:77-96 | Pasting "12-34ab56" into slot 0 of five slots gives 1,2,3,4,5, focus on slot 4 and an enabled button. |
| `PinProperties.SubmitIncomplete` | assets/script.js:113-118 | An incomplete PIN shows the danger message "Silakan lengkapi semua digit PIN". It enters no loading state, queues nothing, and changes neither the slots nor the button. |
| `PinProperties.SubmitComplete` | assets/script.js:113-124 | A complete PIN disables the button, turns loading on and queues that N-digit PIN. The slots and the message stay as they were. |
| `PinProperties.FinishCorrect` | assets/script.js:126-138 | When the captured PIN equals '12345', the success message shows with an auto-hide scheduled, and the redirect is pending. Loading ends, and the button matches the slots. |
| `PinProperties.FinishWrong` | assets/script.js:126-138 | Any other captured PIN shows the danger message "The PO number is incorrect.", with no auto-hide. It sets the error class on every slot and schedules their removal. Slot values are unchanged, loading ends, and the button matches the slots. |
| `PinProperties.WrongPinShakeClears` | assets/script.js:153-160 | After a wrong PIN, the shake's timers fire and leave no slot with the error class; the values are unchanged. |
| `PinProperties.SubmitRoundTrip` | assets/script.js:112-139 | From an idle widget with a complete PIN: loading turns on and then off. The success message shows iff the PIN is the secret, and then the redirect is pending. Any other PIN gets the danger message and leaves the redirect flag unchanged. |
| `PinProperties.OnlyFiveSlotsCanSucceed` | assets/script.js:113-126 | With a slot count other than five, a finished verification always reports the wrong-PIN message. |
| `PinProperties.ClearAllResets` | assets/script.js:179-187 | From any state with slots: every slot is empty with no classes, focus is on slot 0, the button is disabled and the message is hidden. |
| `PinProperties.ClearAllWithoutSlots` | assets/script.js:184 | With no slots, clearAll leaves the state unchanged, because it throws at `inputs[0].focus()`. |
| `PinProperties.StepKeepsWellFormed` | assets/script.js:13-25 | No event can do any of the following: put anything but "" or one digit in a slot, move focus off the slots, or queue an incomplete PIN. |
| `PinProperties.SubmitGateMeaning` | assets/script.js:107-110 | Under the gate: an enabled button means a complete N-digit PIN; outside loading, the button is disabled iff some slot is empty. |
| `PinProperties.InitialGate` | assets/script.js:2-10 | The page as loaded is well formed. With at least one slot, it meets the button rule exactly when the markup's button starts disabled. |
| `PinProperties.StepCorrectedKeepsGate` | assets/script.js:13-25 | With the corrected input handler, every event keeps the gate: the button matches the slots, or it is disabled during loading. |
| `PinProperties.InputRejectBreaksGate` | assets/script.js:31-34 | As written, rejected input in a full, idle widget empties a slot but leaves the button enabled. |
| `PinProperties.BackspaceOnFullWidgetLeavesButtonEnabled` | assets/script.js:48-75 | Backspace on the last of five filled slots, followed by the browser's input event with "", ends with slot 4 empty and the button enabled. |
| `PinController.PinInput.constructor` | assets/script.js:2-11 | N empty slots, nothing focused, no message, not loading, nothing scheduled; the button's disabled state comes from the markup. |
| `PinController.PinInput.UpdateInputState` | assets/script.js:98-105 | The slot's `filled` class becomes "its value is non-empty"; nothing else changes. |
| `PinController.PinInput.UpdateSubmitButton` | assets/script.js:107-110 | The loop over the slots sets `submitDisabled` to "some slot is empty" and changes nothing else. |
| `PinController.PinInput.ClearError` | assets/script.js:162-164 | Every slot loses the error class; values and `filled` stay. |
| `PinController.PinInput.ShowError` | assets/script.js:153-160 | Every slot gets the error class, and one batch of removal timers is scheduled. |
| `PinController.PinInput.ShowMessage` | assets/script.js:166-177 | The message shows with its text and type; a non-danger message also schedules an auto-hide. |
| `PinController.PinInput.SetLoadingState` | assets/script.js:141-151 | Turning loading on disables the button. Turning it off brings the button back in line with the slots. |
| `PinController.PinInput.HandleInput` | assets/script.js:27-46 | The state afterwards is `PinSpec.Input` of the state before, which InputRejected and InputAccepted describe. |
| `PinController.PinInput.HandleInputCorrected` | assets/script.js:27-46 | The corrected handler: the state afterwards is `PinSpec.InputCorrected` of the state before, and the button always matches the slots. |
| `PinController.PinInput.CollectPin` | assets/script.js:113 | Returns the slot values joined in order. Its length is N iff every slot is filled. |
| `PinController.PinInput.BeginSubmit` | assets/script.js:112-124 | The state afterwards is `PinSpec.BeginSubmit` of the state before (SubmitIncomplete, SubmitComplete). |
| `PinController.PinInput.FinishSubmit` | assets/script.js:126-138 | The state afterwards is `PinSpec.FinishSubmit` of the state before (FinishCorrect, FinishWrong). |
| `PinController.PinInput.HandleKeydown` | assets/script.js:48-75 | The state afterwards is `PinSpec.Keydown` of the state before (the Backspace, arrow, Enter and other-key lemmas). |
| `PinController.PinInput.HandlePaste` | assets/script.js:77-96 | The loop over the digits produces `PinSpec.Paste` of the state before (PasteDistributes). |
| `PinController.PinInput.ClearAll` | assets/script.js:179-187 | Returns whether slots exist, and the state afterwards is `PinSpec.ClearAll` of the state before (ClearAllResets). |
| `PinController.PinInput.OnFocus` | assets/script.js:19 | The focused slot becomes `index`, and every error class is removed. |
| `PinController.PinInput.OnBlur` | assets/script.js:20 | The slot loses focus, and its `filled` class is refreshed. |
| `PinController.PinInput.ExpireErrorShake` | assets/script.js:156-158 | One batch of removal timers fires: every error class is removed. |
| `PinController.PinInput.ExpireAutoHide` | assets/script.js:172-176 | One auto-hide timer fires and hides the message. |

## Left out

- DOM plumbing: `querySelectorAll`, `getElementById`, `className` and `innerHTML` writes (the button label "Verifying..." / "View Message", the alert's CSS classes). State is the values, the classes as booleans, the focus index and the flags.
- The `focus` and `blur` events that `.focus()` fires: a handler's `.focus()` call only changes the focus index. The browser's own focus changes are modelled separately, as `OnFocus` and `OnBlur`. In the page, the listeners run synchronously inside that `.focus()` call, so Backspace on an empty slot and the arrow keys also clear every `error` class and refresh the left slot's `filled` class. `BackspaceOnEmpty` and `ArrowKeys` state what the handler body does. The whole keypress is the step sequence `KeyDown`, `Blurred(index)`, `Focused(index - 1)`, so `StepKeepsWellFormed` and `StepCorrectedKeepsGate` still cover it.
- The browser's default action for keys: the deletion a Backspace performs arrives as a separate `HandleInput` with the new value, as in `BackspaceOnFullWidgetLeavesButtonEnabled`.
- Timer durations and ordering against user events: each timer is a pending-callback counter or flag, and its callback is a separate step that can happen at any later point. Pending submissions resolve oldest first, since they share the same delay.
- The navigation to `ad-detail.html`: only `redirectPending` records that it is scheduled.
- `updateDate`, the `setInterval` refresh, the hamburger menu, the textarea counter and the dropdowns (assets/script.js:196-271). They read the clock or only wire DOM events; only `getOrdinal` is modelled.
- `Ordinal.GetOrdinal`: the argument is an integer. Fractional or non-numeric JavaScript values are not modelled; the page passes `getDate()`, which is 1..31.

## Findings

| source | as written | input that shows it | evidently intended | confidence | as-written member | corrected member |
|---|---|---|---|---|---|---|
| assets/script.js:31-34 | The reject path of `handleInput` empties the slot and returns before `updateInputState` and `updateSubmitButton`. | All five slots are filled and the button is enabled. Backspace on slot 4 deletes the digit, and the following input event reads "". Slot 4 is now empty, but the button stays enabled and its `filled` class stays. | The button is enabled only when every slot holds a digit, after every operation. | not executed; the path is the ordinary way of erasing a digit | `PinProperties.InputRejectBreaksGate` | `PinProperties.StepCorrectedKeepsGate` |
