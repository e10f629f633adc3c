/**
 * The widget's view of the shared phrase cache: which phrase it shows,
 * which variants it draws with, and the start index of each word.
 * Timeline scheduling is not modelled.
 */
module Widget {
  import opened Wrappers
  import opened SwiftArith
  import opened Text
  import opened Phrases
  import opened SharedDefaults
  import opened Glyphs

  /**
   * `Provider.getCurrentPhrase()`: the cached index, 0 when missing, taken
   * modulo the catalog size.  Swift's `%` keeps the dividend's sign, so a
   * negative stored index would trap; every writer stores a catalog index.
   */
  function GetCurrentPhrase(defaults: Defaults?, catalog: seq<string>): (phrase: string)
    reads defaults
    requires ValidCatalog(catalog)
    requires StoredIndexOrZero(defaults) >= 0
    ensures phrase in catalog
    ensures phrase == catalog[StoredIndexOrZero(defaults) % |catalog|]
    ensures defaults == null || defaults.currentPhraseIndex.None? ==> phrase == catalog[0]
    ensures StoredIndexOrZero(defaults) < |catalog| ==> phrase == catalog[StoredIndexOrZero(defaults)]
  {
    var index := StoredIndexOrZero(defaults);
    var safeIndex := TruncRem(index, |catalog|);
    TruncRemOfNonNegative(index, |catalog|);
    catalog[safeIndex]
  }

  /** `YesWidgetEntryView.letterVariants`: the cached variants, or none. */
  function LetterVariants(defaults: Defaults?): (variants: seq<int>)
    reads defaults
    ensures defaults != null && defaults.savedLetterVariants.Some? ==> variants == defaults.savedLetterVariants.value
    ensures defaults == null || defaults.savedLetterVariants.None? ==> variants == []
  {
    if defaults == null then [] else defaults.savedLetterVariants.GetOr([])
  }

  /** `wordsWithStartIndices`: each word of the phrase paired with its offset. */
  method WordsWithStartIndices(phrase: string) returns (result: seq<(string, nat)>)
    ensures |result| == |Split(phrase)|
    ensures forall i :: 0 <= i < |result| ==> result[i] == (Split(phrase)[i], Offset(Split(phrase), i))
  {
    result := [];
    var currentIndex := 0;
    var words := Split(phrase);
    for n := 0 to |words|
      invariant |result| == n
      invariant currentIndex == Offset(words, n)
      invariant forall i :: 0 <= i < n ==> result[i] == (words[i], Offset(words, i))
    {
      var word := words[n];
      result := result + [(word, currentIndex)];
      assert words[..n + 1][..n] == words[..n];
      currentIndex := currentIndex + |word|;
    }
  }

  /**
   * The images the widget draws for the cached phrase and variants: one per
   * letter or digit, and for a phrase without punctuation the k-th of them
   * uses the k-th stored variant.
   */
  function EntryGlyphs(defaults: Defaults?, catalog: seq<string>): (glyphs: seq<string>)
    reads defaults
    requires ValidCatalog(catalog)
    requires StoredIndexOrZero(defaults) >= 0
    ensures |glyphs| == CountAlnum(Concat(Split(GetCurrentPhrase(defaults, catalog))))
    ensures NoPunctuation(Split(GetCurrentPhrase(defaults, catalog))) ==>
      glyphs == Indexed(Concat(Split(GetCurrentPhrase(defaults, catalog))), 0, LetterVariants(defaults))
  {
    var words := Split(GetCurrentPhrase(defaults, catalog));
    GlyphCount(words, LetterVariants(defaults));
    if NoPunctuation(words) then
      PhraseAligned(words, LetterVariants(defaults));
      PhraseGlyphs(words, LetterVariants(defaults))
    else
      PhraseGlyphs(words, LetterVariants(defaults))
  }

  lemma {:induction false} GlyphCount(words: seq<string>, variants: seq<int>)
    ensures |PhraseGlyphs(words, variants)| == CountAlnum(Concat(words))
  {
    if words != [] {
      GlyphCount(words[..|words| - 1], variants);
      CountAlnumAppend(Concat(words[..|words| - 1]), words[|words| - 1]);
    }
  }
}
