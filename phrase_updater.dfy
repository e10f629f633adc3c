/**
 * `PhraseUpdater.updateForNewDay(user:)`: clears the user's `done` flag,
 * chooses a phrase the user has not completed (any phrase once all are
 * used), and caches its index and fresh glyph variants in the shared suite.
 * Nothing else of the record changes.  The app-wide notification and the
 * widget reload it posts are not modelled.
 */
module PhraseUpdater {
  import opened Wrappers
  import opened UserModel
  import opened Phrases
  import LetterVariants
  import opened SharedDefaults

  /**
   * `user` is the `inout` record before the call and `updated` the record
   * after it; `chosen` is the index that was picked (and cached when the
   * suite exists).
   */
  method UpdateForNewDay(user: User, catalog: seq<string>, defaults: Defaults?, pick: nat, roll: nat -> nat)
    returns (updated: User, chosen: nat)
    requires ValidCatalog(catalog)
    modifies defaults
    ensures updated == user.(done := false)
    ensures chosen == ChooseIndex(|catalog|, user.phrases, pick)
    ensures defaults != null ==>
      && defaults.currentPhraseIndex == Some(chosen as int)
      && defaults.savedLetterVariants == Some(LetterVariants.Spec(catalog[chosen], roll))
      && defaults.lastUpdate == old(defaults.lastUpdate)
      && defaults.Valid()
  {
    updated := user.(done := false);
    var available := AvailableIndices(|catalog|, updated.phrases);
    if |available| > 0 {
      chosen := RandomElement(available, pick);
    } else {
      var all := AvailableIndices(|catalog|, []);
      assert |catalog| - 1 in all;
      chosen := RandomElement(all, pick);
    }
    if defaults != null {
      defaults.currentPhraseIndex := Some(chosen as int);
    }
    var newPhrase := catalog[chosen];
    var newVariants := LetterVariants.Generate(newPhrase, roll);
    if defaults != null {
      defaults.savedLetterVariants := Some(newVariants);
    }
  }

  /** The chosen index is one the user has not completed whenever such an index exists. */
  lemma ChoosesUnusedWhenPossible(catalog: seq<string>, user: User, pick: nat, j: nat)
    requires ValidCatalog(catalog)
    requires j < |catalog| && j !in user.phrases
    ensures ChooseIndex(|catalog|, user.phrases, pick) !in user.phrases
  {
  }

  /** With the catalog exhausted, every index can be chosen again. */
  lemma ExhaustedCatalogRestarts(catalog: seq<string>, user: User, i: nat)
    requires ValidCatalog(catalog)
    requires forall j :: 0 <= j < |catalog| ==> j in user.phrases
    requires i < |catalog|
    ensures exists pick: nat :: ChooseIndex(|catalog|, user.phrases, pick) == i
  {
    ChooseIndexReaches(|catalog|, user.phrases, i);
  }
}
