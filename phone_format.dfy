/**
 * Phone-number entry: the "(123) 456-7890" layout shared by the SwiftUI
 * phone field and the UIKit `PhoneNumberTextField`, the SwiftUI field's
 * reformat-on-change rule, and the UIKit delegate that keeps the raw digits
 * and the displayed text apart.  Both source files carry the same
 * formatting loops; they are `FormatDigits` here.  Caret placement is not
 * modelled.
 */
module PhoneFormat {
  import opened Wrappers
  import opened Text

  function Min(a: int, b: int): int {
    if a < b then a else b
  }

  /**
   * The layout of a digit string: "(" and the first three digits, ") " once
   * there are three, the next three, then "-" and up to four more.  Digits
   * past the tenth are dropped.
   */
  function Layout(d: string): string {
    var n := |d|;
    (if n > 0 then "(" + d[..Min(n, 3)] + (if n >= 3 then ") " else "") else "")
      + (if n > 3 then d[3..Min(n, 6)] else "")
      + (if n > 6 then "-" + d[6..Min(n, 10)] else "")
  }

  /** `formatPhoneNumber(from:)`: the three bounded copy loops. */
  method FormatDigits(number: string) returns (result: string)
    ensures result == Layout(number)
  {
    result := "";
    var count := |number|;
    var chars := number;
    if count > 0 {
      result := result + "(";
      for i := 0 to Min(count, 3)
        invariant result == "(" + chars[..i]
      {
        result := result + [chars[i]];
        assert chars[..i + 1] == chars[..i] + [chars[i]];
      }
      if count >= 3 {
        result := result + ") ";
      }
    }
    ghost var head := result;
    if count > 3 {
      for i := 3 to Min(count, 6)
        invariant result == head + chars[3..i]
      {
        result := result + [chars[i]];
        assert chars[3..i + 1] == chars[3..i] + [chars[i]];
      }
    }
    ghost var middle := result;
    if count > 6 {
      result := result + "-";
      for i := 6 to Min(count, 10)
        invariant result == middle + "-" + chars[6..i]
      {
        result := result + [chars[i]];
        assert chars[6..i + 1] == chars[6..i] + [chars[i]];
      }
    }
  }

  /** `PhoneAuthView.formatPhoneNumber`: keep the digits, then lay them out. */
  method FormatPhoneNumber(number: string) returns (result: string)
    ensures result == Layout(Digits(number))
  {
    var digits := Digits(number);
    result := FormatDigits(digits);
  }

  lemma DigitsOfPunctuation()
    ensures Digits("(") == [] && Digits(") ") == [] && Digits("-") == []
  {
    DigitsOfNonDigits("(");
    DigitsOfNonDigits(") ");
    DigitsOfNonDigits("-");
  }

  /** `Layout` by the number of digits. */
  lemma LayoutCases(d: string)
    ensures |d| == 0 ==> Layout(d) == ""
    ensures 0 < |d| < 3 ==> Layout(d) == "(" + d
    ensures |d| == 3 ==> Layout(d) == "(" + d + ") "
    ensures 3 < |d| <= 6 ==> Layout(d) == "(" + d[..3] + ") " + d[3..]
    ensures 6 < |d| ==> Layout(d) == "(" + d[..3] + ") " + d[3..6] + "-" + d[6..Min(|d|, 10)]
  {
    assert d[..|d|] == d;
  }

  lemma DigitsHaveNoSeparators(d: string)
    requires AllDigits(d)
    ensures '(' !in d && ')' !in d && '-' !in d
  {
  }

  /** Punctuation before a digit run adds no digits. */
  lemma DigitsAfterPunctuation(sep: string, d: string)
    requires Digits(sep) == []
    requires AllDigits(d)
    ensures Digits(sep + d) == d
  {
    DigitsAppend(sep, d);
    DigitsOfDigits(d);
  }

  /** Punctuation between two digit runs adds no digits. */
  lemma DigitsAroundPunctuation(pre: string, sep: string, d: string)
    requires Digits(sep) == []
    requires AllDigits(d)
    ensures Digits(pre + sep + d) == Digits(pre) + d
  {
    DigitsAppend(pre + sep, d);
    DigitsAppend(pre, sep);
    DigitsOfDigits(d);
  }

  lemma DigitsOfShortLayout(d: string)
    requires AllDigits(d) && 0 < |d| <= 3
    ensures Digits("(" + d) == d
    ensures Digits("(" + d + ") ") == d
  {
    DigitsOfPunctuation();
    DigitsAfterPunctuation("(", d);
    DigitsAppend("(" + d, ") ");
  }

  lemma DigitsOfLongLayout(a: string, b: string, c: string)
    requires AllDigits(a) && AllDigits(b) && AllDigits(c)
    ensures Digits("(" + a + ") " + b) == a + b
    ensures Digits("(" + a + ") " + b + "-" + c) == a + b + c
  {
    DigitsOfPunctuation();
    DigitsAfterPunctuation("(", a);
    DigitsAroundPunctuation("(" + a, ") ", b);
    DigitsAroundPunctuation("(" + a + ") " + b, "-", c);
  }

  /** The digits of the layout are the first ten digits, in order. */
  lemma LayoutKeepsDigits(d: string)
    requires AllDigits(d)
    ensures Digits(Layout(d)) == d[..Min(|d|, 10)]
  {
    var n := |d|;
    LayoutCases(d);
    if n == 0 {
    } else if n <= 3 {
      DigitsOfShortLayout(d);
      assert d[..n] == d;
    } else if n <= 6 {
      DigitsOfLongLayout(d[..3], d[3..], "");
      assert d[..3] + d[3..] == d[..Min(n, 10)];
    } else {
      DigitsOfLongLayout(d[..3], d[3..6], d[6..Min(n, 10)]);
      assert d[..3] + d[3..6] + d[6..Min(n, 10)] == d[..Min(n, 10)];
    }
  }

  /** Only the first ten digits matter. */
  lemma LayoutOfFirstTen(d: string)
    ensures Layout(d[..Min(|d|, 10)]) == Layout(d)
  {
    var t := d[..Min(|d|, 10)];
    assert t[..Min(|t|, 3)] == d[..Min(|d|, 3)];
    if |t| > 3 {
      assert t[3..Min(|t|, 6)] == d[3..Min(|d|, 6)];
    }
    if |t| > 6 {
      assert t[6..Min(|t|, 10)] == d[6..Min(|d|, 10)];
    }
  }

  /**
   * "(" appears once there is a digit, ")" once there are three, and "-"
   * once there are seven.
   */
  lemma Separators(d: string)
    requires AllDigits(d)
    ensures '(' in Layout(d) <==> |d| >= 1
    ensures ')' in Layout(d) <==> |d| >= 3
    ensures '-' in Layout(d) <==> |d| >= 7
  {
    var n := |d|;
    LayoutCases(d);
    DigitsHaveNoSeparators(d);
    if n > 3 {
      DigitsHaveNoSeparators(d[..3]);
      DigitsHaveNoSeparators(d[3..]);
    }
    if n > 6 {
      DigitsHaveNoSeparators(d[3..6]);
      DigitsHaveNoSeparators(d[6..Min(n, 10)]);
    }
  }

  /** Ten digits give the full "(ddd) ddd-dddd" form, fourteen characters long. */
  lemma TenDigits(d: string)
    requires |d| == 10
    ensures Layout(d) == "(" + d[..3] + ") " + d[3..6] + "-" + d[6..]
    ensures |Layout(d)| == 14
  {
  }

  /**
   * Formatting a formatted number changes nothing, because its digits are
   * the first ten digits of the input, which lay out the same way.
   */
  lemma FormatIdempotent(s: string)
    ensures Layout(Digits(Layout(Digits(s)))) == Layout(Digits(s))
  {
    var d := Digits(s);
    LayoutKeepsDigits(d);
    LayoutOfFirstTen(d);
  }

  /** On a digit string the two formatters agree. */
  lemma FormattersAgreeOnDigits(d: string)
    requires AllDigits(d)
    ensures Layout(Digits(d)) == Layout(d)
  {
    DigitsOfDigits(d);
  }

  /** The SwiftUI phone field's text and the copy its change handler keeps. */
  class PhoneAuthField {
    var phoneNumber: string
    var previousPhoneNumber: string

    constructor ()
      ensures phoneNumber == "" && previousPhoneNumber == ""
    {
      phoneNumber := "";
      previousPhoneNumber := "";
    }

    /**
     * `.onChange(of: phoneNumber)`, called once the binding holds
     * `newValue`: a shorter text is left alone and only remembered;
     * otherwise it is reformatted.  `reassigned` tells whether
     * `phoneNumber` was written, which fires the handler again.
     */
    method OnChange(newValue: string) returns (reassigned: bool)
      requires phoneNumber == newValue
      modifies this
      ensures |newValue| < |old(previousPhoneNumber)| ==>
        phoneNumber == newValue && previousPhoneNumber == newValue && !reassigned
      ensures |newValue| >= |old(previousPhoneNumber)| ==>
        && phoneNumber == Layout(Digits(newValue))
        && previousPhoneNumber == phoneNumber
        && (reassigned <==> Layout(Digits(newValue)) != newValue)
    {
      reassigned := false;
      if |newValue| < |previousPhoneNumber| {
        previousPhoneNumber := newValue;
      } else {
        var formatted := FormatPhoneNumber(newValue);
        if formatted != newValue {
          phoneNumber := formatted;
          reassigned := true;
        }
        previousPhoneNumber := phoneNumber;
      }
    }

    /**
     * The user edits the text to `newValue`; a reassignment by the handler
     * fires it once more, and that second run writes nothing, so the
     * cycle stops.
     */
    method Edit(newValue: string)
      modifies this
      ensures |newValue| < |old(previousPhoneNumber)| ==> phoneNumber == newValue
      ensures |newValue| >= |old(previousPhoneNumber)| ==> phoneNumber == Layout(Digits(newValue))
      ensures previousPhoneNumber == phoneNumber
    {
      phoneNumber := newValue;
      var again := OnChange(newValue);
      if again {
        FormatIdempotent(newValue);
        var third := OnChange(phoneNumber);
        assert !third;
      }
    }
  }

  /** The UIKit phone field: the bound raw digits and the text field's text. */
  class PhoneNumberTextField {
    var rawText: string
    /** `UITextField.text`, which may be nil. */
    var text: Option<string>

    constructor (rawText: string)
      ensures this.rawText == rawText && text == None
    {
      this.rawText := rawText;
      text := None;
    }

    /**
     * `textField(_:shouldChangeCharactersIn:replacementString:)`: applies
     * the edit itself, keeps its digits in `rawText`, shows them laid out,
     * and always refuses the system's own edit.  A range that does not fit
     * the current text changes nothing.
     */
    method ShouldChangeCharactersIn(location: int, length: int, replacement: string) returns (allow: bool)
      modifies this
      ensures !allow
      ensures var current := old(text).GetOr("");
        !(0 <= location && 0 <= length && location + length <= |current|) ==>
          rawText == old(rawText) && text == old(text)
      ensures var current := old(text).GetOr("");
        0 <= location && 0 <= length && location + length <= |current| ==>
          && rawText == Digits(current[..location] + replacement + current[location + length..])
          && text == Some(Layout(rawText))
    {
      var currentText := text.GetOr("");
      if !(0 <= location && 0 <= length && location + length <= |currentText|) {
        return false;
      }
      var updatedText := currentText[..location] + replacement + currentText[location + length..];
      var digits := Digits(updatedText);
      rawText := digits;
      var formatted := FormatDigits(digits);
      text := Some(formatted);
      allow := false;
    }

    /** `updateUIView(_:context:)`: the text is written only when it differs from the laid-out digits. */
    method UpdateUIView() returns (written: bool)
      modifies this`text
      ensures text == Some(Layout(rawText))
      ensures written <==> old(text) != Some(Layout(rawText))
    {
      var formatted := FormatDigits(rawText);
      written := false;
      if text != Some(formatted) {
        text := Some(formatted);
        written := true;
      }
    }
  }

  /** The raw digits may run past ten while the field shows only the first ten. */
  lemma RawTextMayExceedDisplay(raw: string)
    requires AllDigits(raw) && |raw| > 10
    ensures Digits(Layout(raw)) == raw[..10]
    ensures |Digits(Layout(raw))| < |raw|
  {
    LayoutKeepsDigits(raw);
  }
}
