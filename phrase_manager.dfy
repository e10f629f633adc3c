/**
 * `PhraseManager.updateDailyPhrase(completion:)`: the widget-side writer of
 * the shared phrase cache.  Once per calendar day (tracked by the suite's own
 * `lastUpdate` key) it picks any catalog index, without regard to the
 * user's completed phrases, and caches fresh variants for it.  The
 * completion runs once on every path.
 */
module PhraseManager {
  import opened Wrappers
  import opened Clock
  import opened Phrases
  import LetterVariants
  import opened SharedDefaults

  /** `completions` is how many times the completion handler ran. */
  method UpdateDailyPhrase(defaults: Defaults?, catalog: seq<string>, now: Time, pick: nat, roll: nat -> nat)
    returns (completions: nat)
    requires ValidCatalog(catalog)
    modifies defaults
    ensures completions == 1
    ensures defaults != null && IsToday(old(defaults.lastUpdate).GetOr(DistantPast), now) ==>
      unchanged(defaults)
    ensures defaults != null && !IsToday(old(defaults.lastUpdate).GetOr(DistantPast), now) ==>
      var chosen := RandomElement(AvailableIndices(|catalog|, []), pick);
      && defaults.currentPhraseIndex == Some(chosen as int)
      && defaults.savedLetterVariants == Some(LetterVariants.Spec(catalog[chosen], roll))
      && defaults.lastUpdate == Some(now)
      && defaults.Valid()
  {
    if defaults == null {
      completions := 1;
      return;
    }
    var lastUpdate := defaults.lastUpdate.GetOr(DistantPast);
    if !IsToday(lastUpdate, now) {
      var allIndices := AvailableIndices(|catalog|, []);
      assert |catalog| - 1 in allIndices;
      var chosenIndex := RandomElement(allIndices, pick);
      defaults.currentPhraseIndex := Some(chosenIndex as int);
      var newPhrase := catalog[chosenIndex];
      var newVariants := LetterVariants.Generate(newPhrase, roll);
      defaults.savedLetterVariants := Some(newVariants);
      defaults.lastUpdate := Some(now);
    }
    completions := 1;
  }

  /** Every catalog index can be the widget's pick, completed or not. */
  lemma AnyIndexCanBePicked(catalog: seq<string>, i: nat)
    requires ValidCatalog(catalog) && i < |catalog|
    ensures exists pick: nat :: RandomElement(AvailableIndices(|catalog|, []), pick) == i
  {
    var all := AvailableIndices(|catalog|, []);
    assert i in all;
    RandomElementReaches(all, i);
  }
}
