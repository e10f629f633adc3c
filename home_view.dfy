/**
 * The home screen: how the current phrase is laid out and what happens
 * when the screen appears.  The drawing rule itself is shared with the
 * widget (module Glyphs).
 */
module HomeScreen {
  import opened Wrappers
  import opened Clock
  import opened Text
  import opened UserModel
  import opened UserService
  import opened Glyphs
  import Home
  import Widget

  const ImageSize: int := 35
  const LongWordImageSize: int := 28

  /** The side of a word's glyphs: smaller for words over ten characters. */
  function GlyphSize(word: string): (size: int)
    ensures size <= ImageSize
    ensures size == ImageSize <==> |word| <= 10
  {
    if |word| > 10 then LongWordImageSize else ImageSize
  }

  /**
   * The images drawn for the view model's phrase and variants: one per
   * letter or digit, and for a phrase without punctuation the k-th of them
   * uses the k-th stored variant.
   */
  function ScreenGlyphs(vm: Home.HomeViewModel): (glyphs: seq<string>)
    reads vm
    ensures |glyphs| == CountAlnum(Concat(Split(vm.currentPhrase)))
    ensures NoPunctuation(Split(vm.currentPhrase)) ==>
      glyphs == Indexed(Concat(Split(vm.currentPhrase)), 0, vm.letterVariants)
  {
    var words := Split(vm.currentPhrase);
    Widget.GlyphCount(words, vm.letterVariants);
    if NoPunctuation(words) then
      PhraseAligned(words, vm.letterVariants);
      PhraseGlyphs(words, vm.letterVariants)
    else
      PhraseGlyphs(words, vm.letterVariants)
  }

  /** The writes the reroll check makes. */
  function GrantWrites(u: User, now: Time): seq<User> {
    if Home.RerollDue(u, now) then [Home.RerollGrant(u, now)] else []
  }

  /** The writes the new-day update makes. */
  function DayWrites(u: User, now: Time): seq<User> {
    (if IsToday(u.lastSignIn, now) then [] else [Home.StreakRollover(u, now)])
      + (if IsToday(u.updatedPhraseDate, now) then [] else [Home.NewDayRecord(u, now)])
  }

  /**
   * `.onAppear`: the welcome popup is shown to a first-time viewer, then the
   * reroll check runs, and the daily update runs on the record it left.
   */
  method OnAppear(vm: Home.HomeViewModel, hasSeenWelcomePopup: bool, now: Time, pick: nat, roll: nat -> nat)
    returns (showWelcome: bool)
    requires vm.Valid() && vm.currentUser.Some?
    modifies vm, vm.defaults, vm.store
    ensures vm.Valid()
    ensures showWelcome == !hasSeenWelcomePopup
    ensures var granted := Home.RerollGrant(old(vm.currentUser.value), now);
      && vm.currentUser == Some(if IsToday(granted.updatedPhraseDate, now) then granted else Home.NewDayRecord(granted, now))
      && Persisted(vm.store, GrantWrites(old(vm.currentUser.value), now) + DayWrites(granted, now))
  {
    showWelcome := false;
    if !hasSeenWelcomePopup {
      showWelcome := true;
    }
    ghost var u := vm.currentUser.value;
    ghost var docs0 := vm.store.docs;
    vm.CheckRerollEligibility(now);
    ghost var granted := vm.currentUser.value;
    ghost var docs1 := vm.store.docs;
    vm.UpdatePhraseOnNewDay(now, pick, roll);
    ApplyAllConcat(docs0, GrantWrites(u, now), DayWrites(granted, now), vm.store.failing);
    if IsToday(granted.updatedPhraseDate, now) {
      assert DayWrites(granted, now) == (if IsToday(granted.lastSignIn, now) then [] else [Home.StreakRollover(granted, now)]);
    }
  }
}
