/**
 * How a phrase is drawn, on the home screen and in the widget alike: the
 * phrase is split into words at spaces, every letter or digit becomes a
 * glyph image named by the lower-cased character and a variant number, and
 * the variant is looked up by the character's global index, which is the
 * word's offset (the total length of the earlier words) plus the position
 * in the word.
 */
module Glyphs {
  import opened Text

  /** `words.reduce(0) { $0 + $1.count }`. */
  function SumLengths(words: seq<string>): nat {
    if words == [] then 0 else SumLengths(words[..|words| - 1]) + |words[|words| - 1]|
  }

  /** The offset of word `i`: the total length of the words before it, spaces not counted. */
  function Offset(words: seq<string>, i: nat): nat
    requires i <= |words|
  {
    SumLengths(words[..i])
  }

  /** The stored variant at `globalIndex`, or 1 past the end of the stored list. */
  function VariantAt(variants: seq<int>, globalIndex: nat): (v: int)
    ensures globalIndex < |variants| ==> v == variants[globalIndex]
    ensures globalIndex >= |variants| ==> v == 1
  {
    if globalIndex < |variants| then variants[globalIndex] else 1
  }

  function DecimalDigit(d: nat): char
    requires d < 10
  {
    ('0' as int + d) as char
  }

  /** String interpolation of an `Int`. */
  function Decimal(n: int): (s: string)
    ensures |s| >= 1
    ensures 0 <= n < 10 ==> s == [DecimalDigit(n)]
    decreases if n < 0 then 1 - n else n
  {
    if n < 0 then "-" + Decimal(-n)
    else if n < 10 then [DecimalDigit(n)]
    else Decimal(n / 10) + [DecimalDigit(n % 10)]
  }

  /** `"\(String(letter).lowercased())_\(variant)"`. */
  function ImageName(c: char, variant: int): string {
    [Lower(c)] + "_" + Decimal(variant)
  }

  /** The image names drawn for `word`, whose first character has global index `start`. */
  function WordGlyphs(word: string, start: nat, variants: seq<int>): (g: seq<string>)
    ensures |g| == CountAlnum(word)
  {
    if word == [] then []
    else
      var last := word[|word| - 1];
      WordGlyphs(word[..|word| - 1], start, variants)
        + (if IsAlnum(last) then [ImageName(last, VariantAt(variants, start + |word| - 1))] else [])
  }

  /** The image names drawn for a phrase already split into words. */
  function PhraseGlyphs(words: seq<string>, variants: seq<int>): seq<string> {
    if words == [] then []
    else PhraseGlyphs(words[..|words| - 1], variants)
           + WordGlyphs(words[|words| - 1], Offset(words, |words| - 1), variants)
  }

  /** The concatenation of the words, spaces dropped. */
  function Concat(words: seq<string>): string {
    if words == [] then [] else Concat(words[..|words| - 1]) + words[|words| - 1]
  }

  /** The glyphs that give the `k`-th character of `s` the variant stored at `start + k`. */
  function Indexed(s: string, start: nat, variants: seq<int>): (g: seq<string>)
    ensures |g| == |s|
  {
    if s == [] then []
    else Indexed(s[..|s| - 1], start, variants) + [ImageName(s[|s| - 1], VariantAt(variants, start + |s| - 1))]
  }

  lemma {:induction false} IndexedAt(s: string, start: nat, variants: seq<int>, k: nat)
    requires k < |s|
    ensures Indexed(s, start, variants)[k] == ImageName(s[k], VariantAt(variants, start + k))
  {
    if k < |s| - 1 {
      IndexedAt(s[..|s| - 1], start, variants, k);
    }
  }

  predicate AllAlnum(word: string) {
    forall k :: 0 <= k < |word| ==> IsAlnum(word[k])
  }

  predicate NoPunctuation(words: seq<string>) {
    forall i, k :: 0 <= i < |words| && 0 <= k < |words[i]| ==> IsAlnum(words[i][k])
  }

  lemma {:induction false} IndexedAppend(a: string, b: string, s: string, start: nat, variants: seq<int>)
    requires s == a + b
    ensures Indexed(s, start, variants) == Indexed(a, start, variants) + Indexed(b, start + |a|, variants)
    decreases |b|
  {
    if b == [] {
      assert s == a;
    } else {
      var init := b[..|b| - 1];
      assert s[..|s| - 1] == a + init;
      assert s[|s| - 1] == b[|b| - 1];
      IndexedAppend(a, init, s[..|s| - 1], start, variants);
    }
  }

  lemma {:induction false} SumLengthsIsConcatLength(words: seq<string>)
    ensures SumLengths(words) == |Concat(words)|
  {
    if words != [] {
      SumLengthsIsConcatLength(words[..|words| - 1]);
    }
  }

  lemma {:induction false} WordAligned(word: string, start: nat, variants: seq<int>)
    requires AllAlnum(word)
    ensures WordGlyphs(word, start, variants) == Indexed(word, start, variants)
  {
    if word != [] {
      var init := word[..|word| - 1];
      WordAligned(init, start, variants);
      assert Indexed(word, start, variants) == Indexed(init, start, variants) + [ImageName(word[|word| - 1], VariantAt(variants, start + |word| - 1))];
    }
  }

  /**
   * When no word holds anything but letters and digits, the glyph for the
   * `k`-th drawn character uses the `k`-th stored variant, the one generated
   * for it.
   */
  lemma {:induction false} PhraseAligned(words: seq<string>, variants: seq<int>)
    requires NoPunctuation(words)
    ensures PhraseGlyphs(words, variants) == Indexed(Concat(words), 0, variants)
  {
    if words != [] {
      NoPunctuationParts(words);
      PhraseAligned(words[..|words| - 1], variants);
      AlignedStep(words, variants);
    }
  }

  lemma NoPunctuationParts(words: seq<string>)
    requires words != [] && NoPunctuation(words)
    ensures NoPunctuation(words[..|words| - 1])
    ensures AllAlnum(words[|words| - 1])
  {
    var init := words[..|words| - 1];
    forall i, k | 0 <= i < |init| && 0 <= k < |init[i]|
      ensures IsAlnum(init[i][k])
    {
      assert init[i] == words[i];
    }
  }

  /** One more word keeps the alignment. */
  lemma AlignedStep(words: seq<string>, variants: seq<int>)
    requires words != []
    requires PhraseGlyphs(words[..|words| - 1], variants) == Indexed(Concat(words[..|words| - 1]), 0, variants)
    requires AllAlnum(words[|words| - 1])
    ensures PhraseGlyphs(words, variants) == Indexed(Concat(words), 0, variants)
  {
    var init := words[..|words| - 1];
    var last := words[|words| - 1];
    var start := Offset(words, |words| - 1);
    assert start == |Concat(init)| by {
      SumLengthsIsConcatLength(init);
    }
    assert WordGlyphs(last, start, variants) == Indexed(last, |Concat(init)|, variants) by {
      WordAligned(last, start, variants);
    }
    assert Concat(words) == Concat(init) + last;
    IndexedAppend(Concat(init), last, Concat(words), 0, variants);
    assert PhraseGlyphs(words, variants) == PhraseGlyphs(init, variants) + WordGlyphs(last, start, variants);
  }

  /**
   * A punctuation mark takes up a global index but no variant: in ",a" the
   * letter is drawn with the fallback variant 1, although the single stored
   * variant, 3, was generated for it.
   */
  lemma PunctuationShiftsVariants()
    ensures Split(",a") == [",a"]
    ensures PhraseGlyphs(Split(",a"), [3]) == ["a_1"]
    ensures Indexed("a", 0, [3]) == ["a_3"]
  {
    assert Split("a") == ["a"] by {
      assert "a"[1..] == [];
      assert Split([]) == [""];
      assert ['a'] + "" == "a";
      assert [""][1..] == [];
    }
    assert ",a"[1..] == "a";
    assert [','] + "a" == ",a";
    assert ["a"][1..] == [];
    assert [",a"][..0] == [];
    assert ",a"[..1] == ",";
    assert ",a"[..1][..0] == [];
    assert ImageName('a', 1) == "a_1";
    assert ImageName('a', 3) == "a_3";
  }

  /** With no stored variants every glyph is variant 1. */
  lemma {:induction false} NoVariantsMeansVariantOne(words: seq<string>)
    ensures forall k :: 0 <= k < |PhraseGlyphs(words, [])| ==>
      |PhraseGlyphs(words, [])[k]| == 3 && PhraseGlyphs(words, [])[k][1..] == "_1"
  {
    if words != [] {
      NoVariantsMeansVariantOne(words[..|words| - 1]);
      WordVariantOne(words[|words| - 1], Offset(words, |words| - 1));
    }
  }

  lemma {:induction false} WordVariantOne(word: string, start: nat)
    ensures forall k :: 0 <= k < |WordGlyphs(word, start, [])| ==>
      |WordGlyphs(word, start, [])[k]| == 3 && WordGlyphs(word, start, [])[k][1..] == "_1"
  {
    if word != [] {
      WordVariantOne(word[..|word| - 1], start);
    }
  }
}
