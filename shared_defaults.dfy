/**
 * The UserDefaults suite `group.offline.yes`, shared by the app and its
 * widget.  A key that was never written is `None`.  When the suite cannot be
 * opened (`UserDefaults(suiteName:)` returns nil) callers hold a null
 * `Defaults?`.
 */
module SharedDefaults {
  import opened Wrappers
  import opened Clock

  class Defaults {
    /** Key `currentPhraseIndex`. */
    var currentPhraseIndex: Option<int>
    /** Key `savedLetterVariants`. */
    var savedLetterVariants: Option<seq<int>>
    /** Key `lastUpdate`, written only by PhraseManager. */
    var lastUpdate: Option<Time>

    /** Every writer stores a catalog index, so a stored index is never negative. */
    ghost predicate Valid()
      reads this
    {
      currentPhraseIndex.Some? ==> currentPhraseIndex.value >= 0
    }

    constructor ()
      ensures Valid()
      ensures currentPhraseIndex == None && savedLetterVariants == None && lastUpdate == None
    {
      currentPhraseIndex := None;
      savedLetterVariants := None;
      lastUpdate := None;
    }
  }

  /**
   * `defaults.integer(forKey: "currentPhraseIndex")`, reading 0 for a missing
   * key, and 0 as well when there is no shared suite.
   */
  function StoredIndexOrZero(defaults: Defaults?): (i: int)
    reads defaults
    ensures defaults != null && defaults.Valid() ==> i >= 0
    ensures defaults == null || defaults.currentPhraseIndex.None? ==> i == 0
  {
    if defaults == null then 0 else defaults.currentPhraseIndex.GetOr(0)
  }
}
