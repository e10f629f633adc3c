/**
 * One-character code fields.  `OtpFields` is the SwiftUI row of fields
 * bound to an array of strings, with its change handler that cuts a field
 * back to one character and moves the focus.  `OtpField` is the UIKit
 * field's coordinator: it refuses edits that would leave more than one
 * character, turns a backspace on an empty field into a "delete backward"
 * event, and moves the focus as text arrives.
 */
module Otp {
  import opened Wrappers

  /**
   * The character a field keeps when it receives more than one: the last
   * one when the first is the field's previous character, the first one
   * otherwise.  Shorter values are kept as they are.
   */
  function Truncate(value: string, oldValue: string): (r: string)
    requires |value| > 1 ==> |oldValue| == 1
    ensures |value| <= 1 ==> r == value
    ensures |value| > 1 ==> |r| == 1 && (r[0] == value[0] || r[0] == value[|value| - 1])
  {
    if |value| > 1 then
      if value[0] == oldValue[0] then [value[|value| - 1]] else [value[0]]
    else value
  }

  /**
   * The focus after a change: a non-empty entry moves on to the next field,
   * or clears the focus on the last one; a cleared field moves back one.
   * A missing focus counts as field 0.
   */
  function FocusAfter(index: int, numberOfFields: int, focus: Option<int>, value: string): Option<int> {
    if value != "" then
      if index == numberOfFields - 1 then None else Some(focus.GetOr(0) + 1)
    else Some(focus.GetOr(0) - 1)
  }

  /**
   * Whichever side of the previous character the new one was typed on, the
   * field keeps the newly typed character.
   */
  lemma TruncateKeepsNewCharacter(oldValue: string, c: char)
    requires |oldValue| == 1
    ensures Truncate(oldValue + [c], oldValue) == [c]
    ensures Truncate([c] + oldValue, oldValue) == [c]
  {
    assert (oldValue + [c])[0] == oldValue[0];
    assert ([c] + oldValue)[1] == oldValue[0];
  }

  /** A truncated value is left alone by a second truncation. */
  lemma TruncateIdempotent(value: string, oldValue: string)
    requires |value| > 1 ==> |oldValue| == 1
    ensures Truncate(Truncate(value, oldValue), oldValue) == Truncate(value, oldValue)
  {
  }

  /**
   * Typing one character into the focused field moves the focus to the
   * next field, and the last field gives the focus up.
   */
  lemma FocusFollowsTyping(index: int, numberOfFields: int, c: char)
    requires 0 <= index < numberOfFields
    ensures index < numberOfFields - 1 ==> FocusAfter(index, numberOfFields, Some(index), [c]) == Some(index + 1)
    ensures index == numberOfFields - 1 ==> FocusAfter(index, numberOfFields, Some(index), [c]) == None
  {
  }

  /** Clearing the first field, or any field with no focus, asks for field -1, which no field has. */
  lemma ClearingMayFocusNoField(numberOfFields: int)
    ensures FocusAfter(0, numberOfFields, Some(0), "") == Some(-1)
    ensures FocusAfter(0, numberOfFields, None, "") == Some(-1)
  {
  }

  /**
   * A paste into the next-to-last field moves the focus twice, to
   * `numberOfFields`, which no field has: the other edge where the focus
   * leaves the row.
   */
  lemma PasteMayFocusNoField(numberOfFields: int, value: string, oldValue: string)
    requires numberOfFields >= 2 && |value| > 1 && |oldValue| == 1
    ensures var index := numberOfFields - 2;
      FocusAfter(index, numberOfFields, FocusAfter(index, numberOfFields, Some(index), value), Truncate(value, oldValue))
        == Some(numberOfFields)
  {
  }

  /** The SwiftUI row of fields. */
  class OtpFields {
    const numberOfFields: int
    /** The bound `enterValue` array, one string per field. */
    var enterValue: seq<string>
    /** `fieldFocus`: the focused field, if any. */
    var fieldFocus: Option<int>
    /** The field's text when its editing began. */
    var oldValue: string

    constructor (numberOfFields: nat, enterValue: seq<string>)
      requires |enterValue| == numberOfFields
      ensures this.numberOfFields == numberOfFields && this.enterValue == enterValue
      ensures fieldFocus == None && oldValue == ""
    {
      this.numberOfFields := numberOfFields;
      this.enterValue := enterValue;
      fieldFocus := None;
      oldValue := "";
    }

    /** `onEditingChanged`: beginning to edit a field remembers its text. */
    method OnEditingChanged(index: int, editing: bool)
      requires 0 <= index < |enterValue|
      modifies this`oldValue
      ensures oldValue == if editing then enterValue[index] else old(oldValue)
    {
      if editing {
        oldValue := enterValue[index];
      }
    }

    /**
     * `.onChange(of: enterValue[index])`, called once the field holds
     * `newValue`.  Only that field and the focus change; `reassigned` tells
     * whether the field was written, which fires the handler again.
     * Truncation turns `oldValue` into a `Character`, which traps unless it
     * is exactly one character.
     */
    method OnChange(index: int, newValue: string) returns (reassigned: bool)
      requires 0 <= index < |enterValue| && enterValue[index] == newValue
      requires |newValue| > 1 ==> |oldValue| == 1
      modifies this`enterValue, this`fieldFocus
      ensures enterValue == old(enterValue)[index := Truncate(newValue, oldValue)]
      ensures fieldFocus == FocusAfter(index, numberOfFields, old(fieldFocus), newValue)
      ensures reassigned <==> |newValue| > 1
    {
      reassigned := false;
      if newValue != "" {
        if |enterValue[index]| > 1 {
          var currentValue := enterValue[index];
          if currentValue[0] == oldValue[0] {
            enterValue := enterValue[index := [currentValue[|currentValue| - 1]]];
          } else {
            enterValue := enterValue[index := [currentValue[0]]];
          }
          reassigned := true;
        }
        if index == numberOfFields - 1 {
          fieldFocus := None;
        } else {
          fieldFocus := Some(fieldFocus.GetOr(0) + 1);
        }
      } else {
        fieldFocus := Some(fieldFocus.GetOr(0) - 1);
      }
    }

    /**
     * The user puts `value` into field `index`; when the handler cuts it to
     * one character, that write fires the handler once more, which moves
     * the focus a second time and writes nothing.
     */
    method Enter(index: int, value: string)
      requires 0 <= index < |enterValue|
      requires |value| > 1 ==> |oldValue| == 1
      modifies this`enterValue, this`fieldFocus
      ensures enterValue == old(enterValue)[index := Truncate(value, oldValue)]
      ensures |value| <= 1 ==> fieldFocus == FocusAfter(index, numberOfFields, old(fieldFocus), value)
      ensures |value| > 1 ==>
        fieldFocus == FocusAfter(index, numberOfFields,
          FocusAfter(index, numberOfFields, old(fieldFocus), value), Truncate(value, oldValue))
    {
      enterValue := enterValue[index := value];
      var again := OnChange(index, value);
      if again {
        var truncated := enterValue[index];
        var third := OnChange(index, truncated);
        assert !third;
        assert enterValue == old(enterValue)[index := Truncate(value, oldValue)];
      }
    }
  }

  /**
   * A paste of several characters into any field but the last moves the
   * focus two fields on, past the next field; from the next-to-last field
   * that is `numberOfFields`, past the end of the row.
   */
  method PasteSkipsAField(fields: OtpFields, index: int, value: string)
    requires 0 <= index < |fields.enterValue| && index < fields.numberOfFields - 1
    requires |value| > 1 && |fields.oldValue| == 1
    requires fields.fieldFocus == Some(index)
    modifies fields
    ensures |fields.enterValue| == old(|fields.enterValue|)
    ensures fields.fieldFocus == Some(index + 2)
    ensures |fields.enterValue[index]| == 1
  {
    fields.Enter(index, value);
  }

  /** Whether the system may apply an edit, and whether "delete backward" fires. */
  datatype Verdict = Verdict(allow: bool, deleteBackward: bool)

  /** The text after replacing `length` characters at `location` with `replacement`. */
  function Edited(current: string, location: int, length: int, replacement: string): string
    requires 0 <= location && 0 <= length && location + length <= |current|
  {
    current[..location] + replacement + current[location + length..]
  }

  /**
   * `textField(_:shouldChangeCharactersIn:replacementString:)`: an edit that
   * would leave more than one character is refused; a backspace on an
   * empty field is refused and fires "delete backward"; every other edit
   * is allowed.  The range must lie inside the text, as `NSString`
   * replacement traps otherwise.
   */
  function ShouldChange(current: string, location: int, length: int, replacement: string): (v: Verdict)
    requires 0 <= location && 0 <= length && location + length <= |current|
    ensures v.allow ==> |Edited(current, location, length, replacement)| <= 1
    ensures v.deleteBackward <==> current == "" && replacement == ""
    ensures v.allow <==> |Edited(current, location, length, replacement)| <= 1 && !v.deleteBackward
  {
    if |Edited(current, location, length, replacement)| > 1 then Verdict(false, false)
    else if current == "" && replacement == "" then Verdict(false, true)
    else Verdict(true, false)
  }

  /** A digit typed into an empty field is allowed; one more into a filled field is refused. */
  lemma OneCharacterPerField(c: char, d: char)
    ensures ShouldChange("", 0, 0, [c]) == Verdict(true, false)
    ensures ShouldChange([d], 1, 0, [c]) == Verdict(false, false)
    ensures ShouldChange([d], 0, 0, [c]) == Verdict(false, false)
  {
    assert Edited([d], 1, 0, [c]) == [d, c];
    assert Edited([d], 0, 0, [c]) == [c, d];
  }

  /** Deleting a field's character is allowed; a backspace on an empty field only fires "delete backward". */
  lemma Backspace(d: char)
    ensures ShouldChange([d], 0, 1, "") == Verdict(true, false)
    ensures ShouldChange("", 0, 0, "") == Verdict(false, true)
  {
    assert Edited([d], 0, 1, "") == "";
  }

  /** The UIKit field and the view state its coordinator writes. */
  class OtpField {
    const index: int
    /** The bound `text`. */
    var text: string
    /** The bound `focusedIndex`. */
    var focusedIndex: Option<int>
    /** `UITextField.text`, which may be nil. */
    var fieldText: Option<string>

    constructor (index: int, text: string, focusedIndex: Option<int>)
      ensures this.index == index && this.text == text && this.focusedIndex == focusedIndex
      ensures fieldText == None
    {
      this.index := index;
      this.text := text;
      this.focusedIndex := focusedIndex;
      fieldText := None;
    }

    /** `textFieldDidChangeSelection(_:)`: copies the text; non-empty text moves the focus on. */
    method DidChangeSelection()
      modifies this`text, this`focusedIndex
      ensures text == fieldText.GetOr("")
      ensures focusedIndex == if text != "" then Some(index + 1) else old(focusedIndex)
    {
      text := fieldText.GetOr("");
      if fieldText.Some? && fieldText.value != "" {
        focusedIndex := Some(index + 1);
      }
    }

    /** `textFieldDidBeginEditing(_:)`: the field takes the focus. */
    method DidBeginEditing()
      modifies this`focusedIndex
      ensures focusedIndex == Some(index)
    {
      focusedIndex := Some(index);
    }

    /**
     * `updateUIView(_:context:)`: shows the bound text and keeps the
     * keyboard exactly when this field is focused.
     */
    method UpdateUIView() returns (firstResponder: bool)
      modifies this`fieldText
      ensures fieldText == Some(text)
      ensures firstResponder <==> focusedIndex == Some(index)
    {
      fieldText := Some(text);
      firstResponder := focusedIndex == Some(index);
    }

    /**
     * The system offers an edit; an allowed one is applied to the field's
     * text and the selection change follows.  `deleteBackward` tells
     * whether "delete backward" fired.
     */
    method Type(location: int, length: int, replacement: string) returns (deleteBackward: bool)
      requires var current := fieldText.GetOr("");
        0 <= location && 0 <= length && location + length <= |current|
      modifies this`fieldText, this`text, this`focusedIndex
      ensures var verdict := ShouldChange(old(fieldText).GetOr(""), location, length, replacement);
        && deleteBackward == verdict.deleteBackward
        && (verdict.allow ==> fieldText == Some(Edited(old(fieldText).GetOr(""), location, length, replacement)))
        && (verdict.allow ==> text == fieldText.value && |text| <= 1)
        && (verdict.allow ==> focusedIndex == if text != "" then Some(index + 1) else old(focusedIndex))
        && (!verdict.allow ==> fieldText == old(fieldText) && text == old(text) && focusedIndex == old(focusedIndex))
    {
      var current := fieldText.GetOr("");
      var verdict := ShouldChange(current, location, length, replacement);
      deleteBackward := verdict.deleteBackward;
      if verdict.allow {
        fieldText := Some(Edited(current, location, length, replacement));
        DidChangeSelection();
      }
    }
  }

  /**
   * Typing a digit into the focused empty field fills it and hands the
   * focus to the next field, so this field gives up the keyboard.
   */
  method TypeDigitMovesOn(field: OtpField, c: char)
    requires field.focusedIndex == Some(field.index) && field.fieldText == Some("")
    modifies field
    ensures field.text == [c] && field.focusedIndex == Some(field.index + 1)
  {
    var deleted := field.Type(0, 0, [c]);
    assert Edited("", 0, 0, [c]) == [c];
    var responder := field.UpdateUIView();
    assert !responder;
  }
}
