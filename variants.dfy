/**
 * Glyph variants: one random value in 1...3 for every letter or digit of the
 * lower-cased phrase, in order.  The same function is written three times in
 * the app (HomeViewModel, PhraseUpdater, PhraseManager); it is modelled once.
 * The k-th `Int.random(in: 1...3)` is `1 + roll(k) % 3` for a caller-supplied
 * `roll`.
 */
module LetterVariants {
  import opened Text

  /** A variant drawn from the k-th random value. */
  function Variant(r: nat): (v: int)
    ensures 1 <= v <= 3
  {
    1 + r % 3
  }

  predicate InRange(variants: seq<int>) {
    forall k :: 0 <= k < |variants| ==> 1 <= variants[k] <= 3
  }

  /** The variants drawn for `phrase`: one per letter or digit. */
  function Spec(phrase: string, roll: nat -> nat): (variants: seq<int>)
  {
    seq(CountAlnum(phrase), (k: int) requires k >= 0 => Variant(roll(k)))
  }

  /** `generateLetterVariants(for:)`. */
  method Generate(phrase: string, roll: nat -> nat) returns (variants: seq<int>)
    ensures variants == Spec(phrase, roll)
    ensures |variants| == CountAlnum(phrase)
    ensures InRange(variants)
  {
    var lowered := LowerString(phrase);
    variants := [];
    for i := 0 to |lowered|
      invariant |variants| == CountAlnum(lowered[..i])
      invariant forall k :: 0 <= k < |variants| ==> variants[k] == Variant(roll(k))
    {
      assert lowered[..i + 1][..i] == lowered[..i];
      if IsAlnum(lowered[i]) {
        variants := variants + [Variant(roll(|variants|))];
      }
    }
    assert lowered[..|lowered|] == lowered;
    CountAlnumLower(phrase);
    assert |variants| == |Spec(phrase, roll)|;
    assert forall k :: 0 <= k < |variants| ==> variants[k] == Spec(phrase, roll)[k];
  }
}
