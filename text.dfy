/**
 * Characters and strings as the app uses them: `Character.isLetter`,
 * `isNumber`, `lowercased()`, `filter`, and `components(separatedBy: " ")`.
 * Characters are classified over ASCII.
 */
module Text {

  /** `Character.isLetter`. */
  predicate IsLetter(c: char) {
    ('a' <= c <= 'z') || ('A' <= c <= 'Z')
  }

  /** `Character.isNumber`. */
  predicate IsDigit(c: char) {
    '0' <= c <= '9'
  }

  /** `char.isLetter || char.isNumber`: the characters drawn as glyphs. */
  predicate IsAlnum(c: char) {
    IsLetter(c) || IsDigit(c)
  }

  predicate AllDigits(s: string) {
    forall i :: 0 <= i < |s| ==> IsDigit(s[i])
  }

  /** `Character.lowercased()`. */
  function Lower(c: char): (r: char)
    ensures IsLetter(c) <==> IsLetter(r)
    ensures IsDigit(c) <==> IsDigit(r)
    ensures 'A' <= r <= 'Z' ==> false
    ensures !IsLetter(c) ==> r == c
  {
    if 'A' <= c <= 'Z' then (c as int - 'A' as int + 'a' as int) as char else c
  }

  /** `String.lowercased()`, character by character. */
  function LowerString(s: string): (r: string)
    ensures |r| == |s|
    ensures forall i :: 0 <= i < |s| ==> r[i] == Lower(s[i])
  {
    seq(|s|, i requires 0 <= i < |s| => Lower(s[i]))
  }

  /** `s.filter { $0.isNumber }`. */
  function Digits(s: string): (r: string)
    ensures AllDigits(r)
    ensures |r| <= |s|
  {
    if s == [] then []
    else Digits(s[..|s| - 1]) + (if IsDigit(s[|s| - 1]) then [s[|s| - 1]] else [])
  }

  /** The number of letters and digits in `s`. */
  function CountAlnum(s: string): (n: nat)
    ensures n <= |s|
  {
    if s == [] then 0
    else CountAlnum(s[..|s| - 1]) + (if IsAlnum(s[|s| - 1]) then 1 else 0)
  }

  lemma {:induction false} DigitsAppend(a: string, b: string)
    ensures Digits(a + b) == Digits(a) + Digits(b)
    decreases |b|
  {
    if b == [] {
      assert a + b == a;
    } else {
      var b' := b[..|b| - 1];
      assert (a + b)[..|a + b| - 1] == a + b';
      DigitsAppend(a, b');
    }
  }

  /** Filtering digits out of a string of digits gives it back. */
  lemma {:induction false} DigitsOfDigits(s: string)
    requires AllDigits(s)
    ensures Digits(s) == s
    decreases |s|
  {
    if s != [] {
      DigitsOfDigits(s[..|s| - 1]);
    }
  }

  /** A character that is not a digit contributes nothing to `Digits`. */
  lemma DigitsOfNonDigits(s: string)
    requires forall i :: 0 <= i < |s| ==> !IsDigit(s[i])
    ensures Digits(s) == []
    decreases |s|
  {
    if s != [] {
      DigitsOfNonDigits(s[..|s| - 1]);
    }
  }

  /** Lower-casing keeps every letter and digit a letter or digit, and nothing else becomes one. */
  lemma {:induction false} CountAlnumLower(s: string)
    ensures CountAlnum(LowerString(s)) == CountAlnum(s)
    decreases |s|
  {
    if s != [] {
      var s' := s[..|s| - 1];
      assert LowerString(s)[..|s| - 1] == LowerString(s');
      CountAlnumLower(s');
    }
  }

  lemma {:induction false} CountAlnumAppend(a: string, b: string)
    ensures CountAlnum(a + b) == CountAlnum(a) + CountAlnum(b)
    decreases |b|
  {
    if b == [] {
      assert a + b == a;
    } else {
      var b' := b[..|b| - 1];
      assert (a + b)[..|a + b| - 1] == a + b';
      CountAlnumAppend(a, b');
    }
  }

  /** `s.components(separatedBy: " ")`: every piece between spaces, empty pieces included. */
  function Split(s: string): (words: seq<string>)
    ensures |words| >= 1
    ensures forall i :: 0 <= i < |words| ==> ' ' !in words[i]
    decreases |s|
  {
    if s == [] then [""]
    else if s[0] == ' ' then [""] + Split(s[1..])
    else
      var rest := Split(s[1..]);
      [[s[0]] + rest[0]] + rest[1..]
  }

  /** `words.joined(separator: " ")`, the inverse of `Split`. */
  function Join(words: seq<string>): string
    requires |words| >= 1
  {
    if |words| == 1 then words[0] else words[0] + " " + Join(words[1..])
  }

  /** Splitting on spaces loses nothing: joining the pieces gives the phrase back. */
  lemma {:induction false} JoinSplit(s: string)
    ensures Join(Split(s)) == s
    decreases |s|
  {
    if s == [] {
    } else if s[0] == ' ' {
      JoinSplit(s[1..]);
      assert Split(s)[1..] == Split(s[1..]);
    } else {
      var rest := Split(s[1..]);
      JoinSplit(s[1..]);
      var words := Split(s);
      assert words[0] == [s[0]] + rest[0];
      if |rest| == 1 {
        assert words == [[s[0]] + rest[0]];
      } else {
        assert words[1..] == rest[1..];
        assert Join(rest) == rest[0] + " " + Join(rest[1..]);
      }
    }
  }

  /** Splitting the joined words of space-free pieces gives the pieces back. */
  lemma {:induction false} SplitJoin(words: seq<string>)
    requires |words| >= 1
    requires forall i :: 0 <= i < |words| ==> ' ' !in words[i]
    ensures Split(Join(words)) == words
    decreases |words|, |words[0]|
  {
    var w := words[0];
    if |words| == 1 {
      SplitWord(w);
    } else if w == [] {
      assert Join(words) == [' '] + Join(words[1..]);
      SplitJoin(words[1..]);
    } else {
      var words' := [w[1..]] + words[1..];
      assert words'[1..] == words[1..];
      SplitJoin(words');
      var joined := [w[0]] + Join(words');
      assert Join(words) == joined;
      assert w[0] in w;
      assert joined[0] == w[0] && joined[1..] == Join(words');
      assert [w[0]] + words'[0] == w;
      assert words == [[w[0]] + words'[0]] + words'[1..];
    }
  }

  lemma {:induction false} SplitWord(w: string)
    requires ' ' !in w
    ensures Split(w) == [w]
    decreases |w|
  {
    if w != [] {
      assert w[0] in w;
      assert forall c :: c in w[1..] ==> c in w;
      SplitWord(w[1..]);
      assert [w[0]] + w[1..] == w;
    }
  }
}
