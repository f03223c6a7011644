/** What the widget's transitions guarantee: each handler's effect on the
    slots, the focus and the submit button, the submission outcomes, the
    reset, and the invariants every event keeps. */
module PinProperties {
  import opened Wrappers
  import opened PinSpec

  // ---- the concatenated PIN ----

  /** With every slot empty or one digit, the PIN has one character per
      filled slot, so it has N characters exactly when every slot is
      filled; it then spells the slots' digits in order. */
  lemma {:induction false} PinLength(slots: seq<Slot>)
    requires forall i :: 0 <= i < |slots| ==> IsSlotValue(slots[i].value)
    ensures |Pin(slots)| <= |slots|
    ensures |Pin(slots)| == |slots| <==> AllFilled(slots)
    ensures AllFilled(slots) ==> forall i :: 0 <= i < |slots| ==> Pin(slots)[i] == slots[i].value[0]
  {
    if |slots| > 0 {
      var init := slots[..|slots| - 1];
      PinLength(init);
      assert forall i :: 0 <= i < |init| ==> init[i] == slots[i];
      if |Pin(slots)| == |slots| {
        assert |Pin(init)| == |init|;
        assert AllFilled(init);
      }
      if AllFilled(slots) {
        assert AllFilled(init);
      }
    }
  }

  // ---- the digits of a pasted text ----

  /** The result holds digits only and is no longer than the text. */
  lemma {:induction false} DigitsAreDigits(t: string)
    ensures |Digits(t)| <= |t|
    ensures forall i :: 0 <= i < |Digits(t)| ==> IsDigit(Digits(t)[i])
  {
    if |t| > 0 {
      DigitsAreDigits(t[..|t| - 1]);
    }
  }

  /** One more character: kept when it is a digit. */
  lemma DigitsSnoc(t: string, c: char)
    ensures Digits(t + [c]) == Digits(t) + (if IsDigit(c) then [c] else "")
  {
    assert (t + [c])[..|t|] == t;
  }

  /** Stripping works piecewise, so the digits keep their order. */
  lemma {:induction false} DigitsAppend(a: string, b: string)
    ensures Digits(a + b) == Digits(a) + Digits(b)
  {
    if |b| == 0 {
      assert a + b == a;
    } else {
      var b' := b[..|b| - 1];
      assert (a + b)[..|a + b| - 1] == a + b';
      assert (a + b)[|a + b| - 1] == b[|b| - 1];
      DigitsAppend(a, b');
    }
  }

  /** A text of digits only is left as it is. */
  lemma {:induction false} DigitsOfDigitText(t: string)
    requires forall i :: 0 <= i < |t| ==> IsDigit(t[i])
    ensures Digits(t) == t
  {
    if |t| > 0 {
      DigitsOfDigitText(t[..|t| - 1]);
      assert t[..|t| - 1] + [t[|t| - 1]] == t;
    }
  }

  // ---- handleInput ----

  /** Anything but one digit empties the slot and touches nothing else: the
      handler returns before moving focus or refreshing the button. */
  lemma InputRejected(w: Widget, index: nat, value: string)
    requires index < |w.slots| && !IsDigitString(value)
    ensures var r := Input(w, index, value);
      && |r.slots| == |w.slots|
      && r.slots[index].value == ""
      && r.slots[index].filled == w.slots[index].filled
      && r.slots[index].error == w.slots[index].error
      && (forall j :: 0 <= j < |w.slots| && j != index ==> r.slots[j] == w.slots[j])
      && r.focus == w.focus && r.submitDisabled == w.submitDisabled
      && r.message == w.message && r.loading == w.loading && r.verifying == w.verifying
  {
  }

  /** One digit is kept and marked filled, focus advances unless this is the
      last slot, the button is refreshed and every error class goes. */
  lemma InputAccepted(w: Widget, index: nat, value: string)
    requires index < |w.slots| && IsDigitString(value)
    ensures var r := Input(w, index, value);
      && |r.slots| == |w.slots|
      && r.slots[index].value == value && r.slots[index].filled
      && (forall j :: 0 <= j < |w.slots| && j != index ==>
            r.slots[j].value == w.slots[j].value && r.slots[j].filled == w.slots[j].filled)
      && (forall j :: 0 <= j < |w.slots| ==> !r.slots[j].error)
      && r.focus == (if index < |w.slots| - 1 then Some(index + 1) else w.focus)
      && Synced(r)
      && r.message == w.message && r.loading == w.loading && r.verifying == w.verifying
  {
  }

  // ---- handleKeydown ----

  /** Backspace in an empty slot after the first: the previous slot is
      focused and emptied, no other slot changes. */
  lemma BackspaceOnEmpty(w: Widget, index: nat)
    requires index < |w.slots| && index > 0 && w.slots[index].value == ""
    ensures var r := Keydown(w, index, "Backspace");
      && |r.slots| == |w.slots|
      && r.focus == Some(index - 1)
      && r.slots[index - 1].value == "" && !r.slots[index - 1].filled
      && r.slots[index - 1].error == w.slots[index - 1].error
      && (forall j :: 0 <= j < |w.slots| && j != index - 1 ==> r.slots[j] == w.slots[j])
      && Synced(r)
  {
  }

  /** Backspace in the first slot or in a filled one changes no slot and no
      focus; only the button is refreshed (the browser's own deletion of a
      digit arrives afterwards as an input event). */
  lemma BackspaceElsewhere(w: Widget, index: nat)
    requires index < |w.slots| && (index == 0 || w.slots[index].value != "")
    ensures Keydown(w, index, "Backspace") == UpdateSubmitButton(w)
    ensures var r := Keydown(w, index, "Backspace");
      r.slots == w.slots && r.focus == w.focus && Synced(r)
  {
  }

  /** The arrow keys move focus by one within the slots and change no slot. */
  lemma ArrowKeys(w: Widget, index: nat)
    requires index < |w.slots|
    ensures var r := Keydown(w, index, "ArrowLeft");
      r.slots == w.slots && r.focus == (if index > 0 then Some(index - 1) else w.focus)
    ensures var r := Keydown(w, index, "ArrowRight");
      r.slots == w.slots && r.focus == (if index < |w.slots| - 1 then Some(index + 1) else w.focus)
  {
  }

  /** Any other key changes nothing but the button. */
  lemma OtherKeys(w: Widget, index: nat, key: string)
    requires index < |w.slots|
    requires key !in {"Backspace", "ArrowLeft", "ArrowRight", "Enter"}
    ensures Keydown(w, index, key) == w.(submitDisabled := !AllFilled(w.slots))
  {
  }

  /** Whatever the key, the handler ends with the button in step with the slots. */
  lemma KeydownSyncs(w: Widget, index: nat, key: string)
    requires index < |w.slots|
    ensures Synced(Keydown(w, index, key))
  {
  }

  /** Enter on a complete PIN starts a verification, but the closing refresh
      of handleKeydown enables the button again while the spinner shows, so a
      second submission can start before the first one ends. */
  lemma EnterReenablesButton(w: Widget, index: nat)
    requires WellFormed(w) && index < |w.slots| && AllFilled(w.slots)
    ensures var r := Keydown(w, index, "Enter");
      r.loading && !r.submitDisabled && r.verifying == w.verifying + [Pin(w.slots)]
  {
    PinLength(w.slots);
  }

  // ---- handlePaste ----

  /** The digits of the text go, in order, into the slots from `index` on
      while slots exist; every other slot keeps its value; focus lands after
      the last digit written, or on the last slot. */
  lemma PasteDistributes(w: Widget, index: nat, text: string)
    requires index < |w.slots|
    ensures var r := Paste(w, index, text); var d := Digits(text);
      && |r.slots| == |w.slots|
      && (forall j :: index <= j < Min(index + |d|, |w.slots|) ==>
            r.slots[j].value == [d[j - index]] && r.slots[j].filled)
      && (forall j :: 0 <= j < |w.slots| && !(index <= j < index + |d|) ==>
            r.slots[j].value == w.slots[j].value && r.slots[j].filled == w.slots[j].filled)
      && (forall j :: 0 <= j < |w.slots| ==> !r.slots[j].error)
      && r.focus == Some(Min(index + |d|, |w.slots| - 1))
      && Synced(r)
  {
    var r := Paste(w, index, text);
    var s := PasteSlots(w.slots, index, Digits(text));
    assert forall j :: 0 <= j < |w.slots| ==> r.slots[j].value == s[j].value;
  }

  /** "12-34ab56" pasted into the first of five slots fills them with 1..5
      and focuses the last one. */
  lemma PasteExample(w: Widget)
    requires |w.slots| == 5
    ensures var r := Paste(w, 0, "12-34ab56");
      && (forall j :: 0 <= j < 5 ==> r.slots[j].value == ["12345"[j]])
      && r.focus == Some(4)
      && !r.submitDisabled
  {
    DigitsExample();
    var r := Paste(w, 0, "12-34ab56");
    PasteDistributes(w, 0, "12-34ab56");
    assert forall j :: 0 <= j < 5 ==> r.slots[j].value == ["123456"[j]];
    assert AllFilled(r.slots);
  }

  /** The digits of the example clipboard text (spelled out one character at a time). */
  lemma DigitsExample()
    ensures Digits("12-34ab56") == "123456"
  {
    DigitsSnoc("", '1');
    assert "" + ['1'] == "1";
    DigitsSnoc("1", '2');
    assert "1" + ['2'] == "12";
    DigitsSnoc("12", '-');
    assert "12" + ['-'] == "12-";
    DigitsSnoc("12-", '3');
    assert "12-" + ['3'] == "12-3";
    DigitsSnoc("12-3", '4');
    assert "12-3" + ['4'] == "12-34";
    DigitsSnoc("12-34", 'a');
    assert "12-34" + ['a'] == "12-34a";
    DigitsSnoc("12-34a", 'b');
    assert "12-34a" + ['b'] == "12-34ab";
    DigitsSnoc("12-34ab", '5');
    assert "12-34ab" + ['5'] == "12-34ab5";
    DigitsSnoc("12-34ab5", '6');
    assert "12-34ab5" + ['6'] == "12-34ab56";
  }

  // ---- handleSubmit ----

  /** An incomplete PIN only shows the danger message: no loading state, no
      pending verification, slots and button unchanged. */
  lemma SubmitIncomplete(w: Widget)
    requires WellFormed(w) && !AllFilled(w.slots)
    ensures var r := BeginSubmit(w);
      && r.message == Visible(IncompleteText, Danger)
      && r.loading == w.loading && r.verifying == w.verifying
      && r.slots == w.slots && r.submitDisabled == w.submitDisabled
      && r.autoHides == w.autoHides
  {
    PinLength(w.slots);
  }

  /** A complete PIN disables the button, shows the spinner and queues the
      PIN as it stands now for the delayed comparison. */
  lemma SubmitComplete(w: Widget)
    requires WellFormed(w) && AllFilled(w.slots)
    ensures var r := BeginSubmit(w);
      && r.loading && r.submitDisabled
      && r.verifying == w.verifying + [Pin(w.slots)]
      && |Pin(w.slots)| == |w.slots|
      && r.slots == w.slots && r.message == w.message
  {
    PinLength(w.slots);
  }

  /** The right PIN: success message (which auto-hides), redirect scheduled,
      spinner gone, button back in step with the slots. */
  lemma FinishCorrect(w: Widget)
    requires |w.verifying| > 0 && w.verifying[0] == CorrectPin
    ensures var r := FinishSubmit(w);
      && r.message == Visible(SuccessText, Success) && r.autoHides == w.autoHides + 1
      && r.redirectPending
      && !r.loading && Synced(r)
      && r.slots == w.slots && r.errorShakes == w.errorShakes
      && r.verifying == w.verifying[1..]
  {
  }

  /** Any other PIN: danger message (which stays), every slot shakes, no
      redirect is scheduled, spinner gone, button back in step. */
  lemma FinishWrong(w: Widget)
    requires |w.verifying| > 0 && w.verifying[0] != CorrectPin
    ensures var r := FinishSubmit(w);
      && r.message == Visible(WrongText, Danger) && r.autoHides == w.autoHides
      && r.redirectPending == w.redirectPending
      && |r.slots| == |w.slots|
      && (forall j :: 0 <= j < |w.slots| ==>
            r.slots[j].error && r.slots[j].value == w.slots[j].value && r.slots[j].filled == w.slots[j].filled)
      && r.errorShakes == w.errorShakes + 1
      && !r.loading && Synced(r)
      && r.verifying == w.verifying[1..]
  {
    var r := FinishSubmit(w);
    assert forall j :: 0 <= j < |w.slots| ==> r.slots[j].value == w.slots[j].value;
  }

  /** The shake of a wrong PIN is undone when its timers fire: afterwards no
      slot has the error class and the values are still those typed. */
  lemma WrongPinShakeClears(w: Widget)
    requires |w.verifying| > 0 && w.verifying[0] != CorrectPin
    ensures var r := FinishSubmit(w);
      && r.errorShakes > 0
      && var c := ExpireErrorShake(r);
      && |c.slots| == |w.slots|
      && (forall j :: 0 <= j < |w.slots| ==> !c.slots[j].error && c.slots[j].value == w.slots[j].value)
      && c.errorShakes == w.errorShakes && c.message == r.message
  {
    FinishWrong(w);
  }

  /** A whole submission of a complete PIN from an idle widget: loading on,
      then off; the outcome depends only on whether the PIN is the secret. */
  lemma SubmitRoundTrip(w: Widget)
    requires WellFormed(w) && AllFilled(w.slots) && w.verifying == []
    ensures var b := BeginSubmit(w);
      && b.loading && b.submitDisabled && |b.verifying| == 1
      && var r := FinishSubmit(b);
      && !r.loading && Synced(r) && r.verifying == []
      && (Pin(w.slots) == CorrectPin <==> r.message == Visible(SuccessText, Success))
      && (Pin(w.slots) == CorrectPin ==> r.redirectPending)
      && (Pin(w.slots) != CorrectPin ==> r.message == Visible(WrongText, Danger))
      && (Pin(w.slots) != CorrectPin ==> r.redirectPending == w.redirectPending)
  {
    SubmitComplete(w);
    var b := BeginSubmit(w);
    if Pin(w.slots) == CorrectPin { FinishCorrect(b); } else { FinishWrong(b); }
  }

  /** The secret has five digits, so a widget with any other number of slots
      never reports success. */
  lemma OnlyFiveSlotsCanSucceed(w: Widget)
    requires WellFormed(w) && |w.verifying| > 0 && |w.slots| != 5
    ensures FinishSubmit(w).message == Visible(WrongText, Danger)
  {
    assert |w.verifying[0]| == |w.slots|;
  }

  // ---- clearAll ----

  /** Whatever the prior state, a widget with slots ends empty, unflagged,
      focused on the first slot, with the button disabled and no message. */
  lemma ClearAllResets(w: Widget)
    requires |w.slots| > 0
    ensures var r := ClearAll(w);
      && |r.slots| == |w.slots|
      && (forall j :: 0 <= j < |r.slots| ==> r.slots[j] == Slot("", false, false))
      && r.focus == Some(0) && r.submitDisabled && r.message == Hidden
      && Synced(r) && r.loading == w.loading && r.verifying == w.verifying
  {
    var r := ClearAll(w);
    assert |r.slots| > 0 && r.slots[0].value == "";
  }

  /** With no slots, clearAll throws at `inputs[0].focus()` and nothing changes. */
  lemma ClearAllWithoutSlots(w: Widget)
    requires |w.slots| == 0
    ensures ClearAll(w) == w
  {
  }

  // ---- invariants over every event ----

  lemma PasteKeepsWellFormed(w: Widget, index: nat, text: string)
    requires WellFormed(w) && index < |w.slots|
    ensures WellFormed(Paste(w, index, text))
  {
    DigitsAreDigits(text);
    var r := Paste(w, index, text);
    var s := PasteSlots(w.slots, index, Digits(text));
    assert forall j :: 0 <= j < |w.slots| ==> r.slots[j].value == s[j].value;
  }

  lemma BeginSubmitKeepsWellFormed(w: Widget)
    requires WellFormed(w)
    ensures WellFormed(BeginSubmit(w))
  {
    var r := BeginSubmit(w);
    if |Pin(w.slots)| == |w.slots| {
      assert r.verifying == w.verifying + [Pin(w.slots)];
    }
  }

  lemma KeydownKeepsWellFormed(w: Widget, index: nat, key: string)
    requires WellFormed(w) && index < |w.slots|
    ensures WellFormed(Keydown(w, index, key))
  {
    var w1 := if key == "Backspace" then Backspace(w, index) else w;
    var w2 := if key == "ArrowLeft" && index > 0 then w1.(focus := Some(index - 1)) else w1;
    var w3 := if key == "ArrowRight" && index < |w.slots| - 1 then w2.(focus := Some(index + 1)) else w2;
    assert WellFormed(w3);
    BeginSubmitKeepsWellFormed(w3);
  }

  lemma FinishSubmitKeepsWellFormed(w: Widget)
    requires WellFormed(w) && |w.verifying| > 0
    ensures WellFormed(FinishSubmit(w))
  {
    var r := FinishSubmit(w);
    assert forall j :: 0 <= j < |w.slots| ==> r.slots[j].value == w.slots[j].value;
  }

  lemma ClearErrorKeepsValues(w: Widget)
    ensures |ClearError(w).slots| == |w.slots|
    ensures forall j :: 0 <= j < |w.slots| ==> ClearError(w).slots[j].value == w.slots[j].value
  {
  }

  lemma InputKeepsWellFormed(w: Widget, index: nat, value: string, corrected: bool)
    requires WellFormed(w) && index < |w.slots|
    ensures WellFormed(if corrected then InputCorrected(w, index, value) else Input(w, index, value))
  {
    if IsDigitString(value) {
      var x := UpdateInputState(SetValue(w, index, value), index);
      ClearErrorKeepsValues(UpdateSubmitButton(if index < |w.slots| - 1 then x.(focus := Some(index + 1)) else x));
    }
  }

  lemma TimersAndFocusKeepWellFormed(w: Widget, index: nat)
    requires WellFormed(w) && index < |w.slots|
    ensures WellFormed(Focus(w, index)) && WellFormed(Blur(w, index))
    ensures w.errorShakes > 0 ==> WellFormed(ExpireErrorShake(w))
    ensures w.autoHides > 0 ==> WellFormed(ExpireAutoHide(w))
    ensures WellFormed(ClearAll(w))
  {
    ClearErrorKeepsValues(w.(focus := Some(index)));
    ClearErrorKeepsValues(w);
  }

  /** No event, with either input handler, produces a slot that is neither
      empty nor one digit, moves focus off the slots, or queues an incomplete PIN. */
  lemma StepKeepsWellFormed(w: Widget, e: Event, corrected: bool)
    requires WellFormed(w) && Enabled(w, e)
    ensures WellFormed(StepWith(w, e, corrected))
  {
    match e
    case Typed(i, v) => InputKeepsWellFormed(w, i, v, corrected);
    case Pasted(i, t) => PasteKeepsWellFormed(w, i, t);
    case KeyDown(i, k) => KeydownKeepsWellFormed(w, i, k);
    case SubmitClicked => BeginSubmitKeepsWellFormed(w);
    case DelayElapsed => FinishSubmitKeepsWellFormed(w);
    case Focused(i) => TimersAndFocusKeepWellFormed(w, i);
    case Blurred(i) => TimersAndFocusKeepWellFormed(w, i);
    case ErrorShakeElapsed => ClearErrorKeepsValues(w);
    case AutoHideElapsed =>
    case ClearAllCalled =>
  }

  /** The gate the button is meant to be: in step with the slots, or
      disabled while a verification shows its spinner. */
  predicate SubmitGate(w: Widget)
  {
    Synced(w) || (w.loading && w.submitDisabled)
  }

  /** Under the gate an enabled button means a complete PIN, and outside the
      loading state the button is enabled exactly when every slot is filled. */
  lemma SubmitGateMeaning(w: Widget)
    requires WellFormed(w) && SubmitGate(w)
    ensures !w.submitDisabled ==> AllFilled(w.slots) && |Pin(w.slots)| == |w.slots|
    ensures !w.loading ==> (w.submitDisabled <==> !AllFilled(w.slots))
  {
    PinLength(w.slots);
  }

  /** The page as loaded is well formed, and with at least one slot it meets
      the gate exactly when the markup's button starts disabled. */
  lemma InitialGate(n: nat, buttonDisabled: bool)
    ensures WellFormed(Initial(n, buttonDisabled))
    ensures n > 0 ==> (SubmitGate(Initial(n, buttonDisabled)) <==> buttonDisabled)
  {
    if n > 0 {
      assert Initial(n, buttonDisabled).slots[0].value == "";
    }
  }

  /** With the corrected input handler every event keeps the gate. */
  lemma StepCorrectedKeepsGate(w: Widget, e: Event)
    requires WellFormed(w) && SubmitGate(w) && Enabled(w, e)
    ensures SubmitGate(StepCorrected(w, e))
  {
    match e
    case Pasted(i, t) => PasteDistributes(w, i, t);
    case Typed(i, v) =>
      if IsDigitString(v) { InputAccepted(w, i, v); }
    case KeyDown(i, k) => KeydownSyncs(w, i, k);
    case SubmitClicked => PinLength(w.slots);
    case Focused(i) =>
      var r := Focus(w, i);
      assert forall j :: 0 <= j < |w.slots| ==> r.slots[j].value == w.slots[j].value;
    case Blurred(i) =>
      var r := Blur(w, i);
      assert forall j :: 0 <= j < |w.slots| ==> r.slots[j].value == w.slots[j].value;
    case ErrorShakeElapsed =>
      var r := ExpireErrorShake(w);
      assert forall j :: 0 <= j < |w.slots| ==> r.slots[j].value == w.slots[j].value;
    case DelayElapsed =>
    case AutoHideElapsed =>
    case ClearAllCalled =>
  }

  /** As written the gate fails: rejected input in a full, idle widget
      empties a slot but leaves the button enabled. */
  lemma InputRejectBreaksGate(w: Widget, index: nat, value: string)
    requires WellFormed(w) && Synced(w) && !w.loading && AllFilled(w.slots)
    requires index < |w.slots| && !IsDigitString(value)
    ensures var r := Step(w, Typed(index, value));
      !AllFilled(r.slots) && !r.submitDisabled && !SubmitGate(r)
  {
    var r := Step(w, Typed(index, value));
    assert r.slots[index].value == "";
  }

  /** The everyday path: five digits typed, focus on the last slot, Backspace
      pressed. handleKeydown sees a filled slot and keeps the button enabled;
      the browser then deletes the digit and fires an input event with "",
      which handleInput wipes and returns from. The button stays enabled over
      an empty slot. */
  lemma BackspaceOnFullWidgetLeavesButtonEnabled()
    ensures var s := seq(5, j requires 0 <= j < 5 => Slot(["12345"[j]], true, false));
      var w := Widget(s, Some(4), false, Hidden, false, [], false, 0, 0);
      && WellFormed(w) && Synced(w)
      && var k := Step(w, KeyDown(4, "Backspace"));
      && k.slots == w.slots && !k.submitDisabled
      && var r := Step(k, Typed(4, ""));
      && r.slots[4].value == "" && !r.submitDisabled && !Synced(r)
  {
    var s := seq(5, j requires 0 <= j < 5 => Slot(["12345"[j]], true, false));
    var w := Widget(s, Some(4), false, Hidden, false, [], false, 0, 0);
    assert AllFilled(s);
    var k := Step(w, KeyDown(4, "Backspace"));
    var r := Step(k, Typed(4, ""));
    assert r.slots[4].value == "";
  }
}
