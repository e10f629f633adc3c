/**
 * HomeViewModel: the daily phrase, streak and reroll state machine of the
 * home screen.  The step each operation applies to the user record is a
 * function here (`RerollGrant`, `StreakRollover`, `NewDayRecord`,
 * `ToggleDone`); the class methods apply it to `currentUser`, write the
 * record through `updateUser`, and read or write the shared phrase cache.
 * Work the source defers with `DispatchQueue.main.async` happens at the end
 * of the method here.
 */
module Home {
  import opened Wrappers
  import opened Clock
  import opened UserModel
  import opened Phrases
  import LetterVariants
  import opened SharedDefaults
  import opened UserService
  import PhraseUpdater

  /** A reroll credit is granted once seven days have passed since the last grant. */
  const RerollIntervalDays: int := 7

  predicate RerollDue(u: User, now: Time) {
    now >= AddDays(u.rerollDate, RerollIntervalDays)
  }

  /** The record after `checkRerollEligibility()`. */
  function RerollGrant(u: User, now: Time): User {
    if RerollDue(u, now) then u.(rerolls := u.rerolls + 1, rerollDate := now) else u
  }

  /** A grant adds exactly one credit and restarts the week; otherwise nothing changes. */
  lemma RerollGrantEffect(u: User, now: Time)
    ensures var r := RerollGrant(u, now);
      && SameIdentity(r, u)
      && (r.rerolls == u.rerolls + 1 <==> RerollDue(u, now))
      && (RerollDue(u, now) ==> r.rerollDate == now && r == u.(rerolls := r.rerolls, rerollDate := now))
      && (!RerollDue(u, now) ==> r == u)
  {
  }

  /** Checking twice at the same moment grants at most one credit. */
  lemma RerollGrantIdempotent(u: User, now: Time)
    ensures RerollGrant(RerollGrant(u, now), now) == RerollGrant(u, now)
    ensures RerollGrant(RerollGrant(u, now), now).rerolls <= u.rerolls + 1
  {
  }

  /**
   * The streak part of `updatePhraseOnNewDay()`: the streak is reset to 1
   * when the last completed day is neither today nor yesterday.
   */
  function StreakRollover(u: User, now: Time): User {
    if !IsToday(u.lastSignIn, now) && !IsYesterday(u.lastSignIn, now) then u.(streak := 1) else u
  }

  /** The rollover never adds to the streak; it only resets it after a missed day. */
  lemma StreakRolloverNeverIncrements(u: User, now: Time)
    ensures var r := StreakRollover(u, now);
      && r == u.(streak := r.streak)
      && (r.streak == 1 || r.streak == u.streak)
      && (r.streak != u.streak ==> r.streak == 1 && !IsToday(u.lastSignIn, now) && !IsYesterday(u.lastSignIn, now))
      && (IsToday(u.lastSignIn, now) || IsYesterday(u.lastSignIn, now) ==> r == u)
  {
  }

  /** The records `updatePhraseOnNewDay()` writes for the streak: the rolled-over record, unless the last sign-in was today. */
  function StreakWrites(u: User, now: Time): seq<User> {
    if IsToday(u.lastSignIn, now) then [] else [StreakRollover(u, now)]
  }

  /** The record after a new-day rollover that picks a new phrase. */
  function NewDayRecord(u: User, now: Time): User {
    StreakRollover(u, now).(done := false, updatedPhraseDate := now)
  }

  /** After a rollover the phrase counts as updated today, so a second rollover the same day picks nothing. */
  lemma NewDayRecordIsToday(u: User, now: Time)
    ensures IsToday(NewDayRecord(u, now).updatedPhraseDate, now)
    ensures !NewDayRecord(u, now).done
    ensures NewDayRecord(u, now).phrases == u.phrases
    ensures SameIdentity(NewDayRecord(u, now), u)
  {
  }

  /**
   * The record after `toggleDoneStatus()` at `now`, with `cached` the index
   * read from the shared cache.
   */
  function ToggleDone(u: User, now: Time, cached: int): User {
    if !u.done then
      u.(done := true, streak := u.streak + 1, lastSignIn := now,
         phrases := if u.LastPhrase() != Some(cached) then u.phrases + [cached] else u.phrases)
    else
      u.(done := false,
         streak := if u.streak - 1 > 1 then u.streak - 1 else 1,
         lastSignIn := AddDays(now, -1),
         phrases := if u.LastPhrase() == Some(cached) then u.phrases[..|u.phrases| - 1] else u.phrases)
  }

  /** Marking done credits the day and leaves the cached index as the last completed phrase. */
  lemma ToggleOnEffect(u: User, now: Time, cached: int)
    requires !u.done
    ensures var r := ToggleDone(u, now, cached);
      && r.done && r.streak == u.streak + 1 && r.lastSignIn == now
      && r.LastPhrase() == Some(cached)
      && |r.phrases| <= |u.phrases| + 1
      && r.phrases[..|u.phrases|] == u.phrases
      && SameIdentity(r, u)
  {
  }

  /** Unmarking takes the day back: the streak drops but not below 1, and the cached index is popped if it is last. */
  lemma ToggleOffEffect(u: User, now: Time, cached: int)
    requires u.done
    ensures var r := ToggleDone(u, now, cached);
      && !r.done
      && r.streak == (if u.streak > 2 then u.streak - 1 else 1)
      && r.lastSignIn == AddDays(now, -1)
      && IsYesterday(r.lastSignIn, now)
      && (r.phrases == u.phrases || (u.LastPhrase() == Some(cached) && r.phrases + [cached] == u.phrases))
      && SameIdentity(r, u)
  {
  }

  /**
   * Marking done and then unmarking, with the same cached index, gives the
   * completed phrases back exactly when the index was not already last, and
   * the streak back exactly when it was at least 1; the last completed day
   * becomes the day before the second toggle.
   */
  lemma ToggleOnThenOff(u: User, now1: Time, now2: Time, cached: int)
    requires !u.done
    ensures var v := ToggleDone(ToggleDone(u, now1, cached), now2, cached);
      && v.done == u.done
      && (v.phrases == u.phrases <==> u.LastPhrase() != Some(cached))
      && (v.streak == u.streak <==> u.streak >= 1)
      && v.lastSignIn == AddDays(now2, -1)
  {
    var w := ToggleDone(u, now1, cached);
    assert w.LastPhrase() == Some(cached);
    if u.LastPhrase() == Some(cached) {
      assert |ToggleDone(w, now2, cached).phrases| == |u.phrases| - 1;
    } else {
      assert w.phrases == u.phrases + [cached];
      assert w.phrases[..|w.phrases| - 1] == u.phrases;
    }
  }

  /**
   * The phrase to show: the cached index when it is a catalog index,
   * otherwise a fresh choice.
   */
  function ResolveIndex(cached: Option<int>, count: nat, used: seq<int>, pick: nat): (i: nat)
    requires count > 0
    requires cached.Some? ==> cached.value >= 0
    ensures i < count
  {
    if cached.Some? && cached.value < count then cached.value else ChooseIndex(count, used, pick)
  }

  /** A usable cached index is kept; otherwise the choice avoids completed phrases whenever it can. */
  lemma ResolveIndexKeepsCache(cached: Option<int>, count: nat, used: seq<int>, pick: nat)
    requires count > 0
    requires cached.Some? ==> cached.value >= 0
    ensures cached.Some? && cached.value < count ==> ResolveIndex(cached, count, used, pick) == cached.value
    ensures (cached.None? || cached.value >= count) && (exists j :: 0 <= j < count && j !in used) ==>
      ResolveIndex(cached, count, used, pick) !in used
  {
  }

  class HomeViewModel {
    var currentUser: Option<User>
    var currentPhrase: string
    var letterVariants: seq<int>
    /** `Phrases.all`. */
    const catalog: seq<string>
    /** The shared suite, or null when it cannot be opened. */
    const defaults: Defaults?
    /** The `users` collection behind `UserService.shared`. */
    const store: UserStore

    ghost predicate Valid()
      reads this, defaults
    {
      ValidCatalog(catalog) && (defaults != null ==> defaults.Valid())
    }

    /** `init()`; `user` is the record the shared user publisher delivers. */
    constructor (catalog: seq<string>, defaults: Defaults?, store: UserStore, user: Option<User>)
      requires ValidCatalog(catalog) && (defaults != null ==> defaults.Valid())
      ensures Valid()
      ensures this.catalog == catalog && this.defaults == defaults && this.store == store
      ensures currentUser == user && currentPhrase == "default" && letterVariants == []
    {
      this.catalog := catalog;
      this.defaults := defaults;
      this.store := store;
      currentUser := user;
      currentPhrase := "default";
      letterVariants := [];
    }

    /** What `setPhrasesAndVariants(user:)` leaves behind. */
    twostate predicate ShowsPhraseFor(user: User, pick: nat, roll: nat -> nat)
      reads this, defaults
      requires old(Valid())
    {
      if defaults == null then
        currentPhrase == old(currentPhrase) && letterVariants == old(letterVariants)
      else
        var index := ResolveIndex(old(defaults.currentPhraseIndex), |catalog|, user.phrases, pick);
        && defaults.currentPhraseIndex == Some(index as int)
        && currentPhrase == catalog[index]
        && letterVariants == old(defaults.savedLetterVariants).GetOr(LetterVariants.Spec(catalog[index], roll))
        && defaults.savedLetterVariants == Some(letterVariants)
        && defaults.lastUpdate == old(defaults.lastUpdate)
    }

    /** `setPhrasesAndVariants(user:)`. */
    method SetPhrasesAndVariants(user: User, pick: nat, roll: nat -> nat)
      requires Valid()
      modifies defaults, this`currentPhrase, this`letterVariants
      ensures Valid()
      ensures ShowsPhraseFor(user, pick, roll)
    {
      if defaults == null {
        return;
      }
      var phrase: string;
      var stored := defaults.currentPhraseIndex;
      if stored.Some? && stored.value < |catalog| {
        phrase := catalog[stored.value];
      } else {
        var chosenIndex := ChooseIndex(|catalog|, user.phrases, pick);
        defaults.currentPhraseIndex := Some(chosenIndex as int);
        phrase := catalog[chosenIndex];
      }
      currentPhrase := phrase;
      var storedVariants := defaults.savedLetterVariants;
      if storedVariants.Some? {
        letterVariants := storedVariants.value;
      } else {
        var newVariants := LetterVariants.Generate(phrase, roll);
        defaults.savedLetterVariants := Some(newVariants);
        letterVariants := newVariants;
      }
    }

    /** `checkRerollEligibility()`. */
    method CheckRerollEligibility(now: Time)
      requires currentUser.Some?
      modifies this`currentUser, store
      ensures currentUser == Some(RerollGrant(old(currentUser.value), now))
      ensures Persisted(store, if RerollDue(old(currentUser.value), now) then [currentUser.value] else [])
    {
      var nextEligibleDate := AddDays(currentUser.value.rerollDate, RerollIntervalDays);
      if now >= nextEligibleDate {
        currentUser := Some(currentUser.value.(rerolls := currentUser.value.rerolls + 1));
        currentUser := Some(currentUser.value.(rerollDate := now));
        var _ := store.UpdateUser(currentUser.value);
      }
    }

    /** `performReroll()`: spends a credit on an immediate new phrase, ignoring the once-a-day guard. */
    method PerformReroll(pick: nat, roll: nat -> nat)
      requires Valid() && currentUser.Some?
      modifies this`currentUser, this`currentPhrase, this`letterVariants, defaults, store
      ensures Valid()
      ensures old(currentUser.value.rerolls) <= 0 ==>
        && currentUser == old(currentUser)
        && currentPhrase == old(currentPhrase) && letterVariants == old(letterVariants)
        && (defaults != null ==> unchanged(defaults))
        && Persisted(store, [])
      ensures old(currentUser.value.rerolls) > 0 ==>
        var u := old(currentUser.value).(rerolls := old(currentUser.value.rerolls) - 1, done := false);
        && currentUser == Some(u)
        && Persisted(store, [u])
        && (defaults == null ==> currentPhrase == old(currentPhrase) && letterVariants == old(letterVariants))
        && (defaults != null ==>
              var chosen := ChooseIndex(|catalog|, u.phrases, pick);
              && defaults.currentPhraseIndex == Some(chosen as int)
              && currentPhrase == catalog[chosen]
              && letterVariants == LetterVariants.Spec(catalog[chosen], roll)
              && defaults.savedLetterVariants == Some(letterVariants)
              && defaults.lastUpdate == old(defaults.lastUpdate))
    {
      if currentUser.value.rerolls > 0 {
        currentUser := Some(currentUser.value.(rerolls := currentUser.value.rerolls - 1));
        currentUser := Some(currentUser.value.(done := false));
        var _ := store.UpdateUser(currentUser.value);
        var updated, chosen := PhraseUpdater.UpdateForNewDay(currentUser.value, catalog, defaults, pick, roll);
        currentUser := Some(updated);
        SetPhrasesAndVariants(currentUser.value, pick, roll);
      }
    }

    /**
     * `updatePhraseOnNewDay()`.  A missed day resets the streak, and that
     * record is written; when the phrase was already updated today the
     * record in `currentUser` is not replaced, so the reset is written but
     * not kept in memory.  Otherwise a new phrase is chosen and the record
     * is written again with `updatedPhraseDate` set to now.
     */
    method UpdatePhraseOnNewDay(now: Time, pick: nat, roll: nat -> nat)
      requires Valid() && currentUser.Some?
      modifies this`currentUser, this`currentPhrase, this`letterVariants, defaults, store
      ensures Valid()
      ensures var u := old(currentUser.value);
        var streakWrite := StreakWrites(u, now);
        IsToday(u.updatedPhraseDate, now) ==>
          && currentUser == old(currentUser)
          && Persisted(store, streakWrite)
          && ShowsPhraseFor(StreakRollover(u, now), pick, roll)
      ensures var u := old(currentUser.value);
        var streakWrite := StreakWrites(u, now);
        !IsToday(u.updatedPhraseDate, now) ==>
          && currentUser == Some(NewDayRecord(u, now))
          && Persisted(store, streakWrite + [NewDayRecord(u, now)])
          && (defaults == null ==> currentPhrase == old(currentPhrase) && letterVariants == old(letterVariants))
          && (defaults != null ==>
                var chosen := ChooseIndex(|catalog|, u.phrases, pick);
                && defaults.currentPhraseIndex == Some(chosen as int)
                && currentPhrase == catalog[chosen]
                && letterVariants == LetterVariants.Spec(catalog[chosen], roll)
                && defaults.savedLetterVariants == Some(letterVariants)
                && defaults.lastUpdate == old(defaults.lastUpdate))
    {
      var u := currentUser.value;
      ghost var docs0 := store.docs;
      ghost var writes := StreakWrites(u, now);
      var newUser := WriteStreakRollover(u, now);
      if IsToday(newUser.updatedPhraseDate, now) {
        SetPhrasesAndVariants(newUser, pick, roll);
        return;
      }
      ghost var requests1 := store.requests;
      ghost var docs1 := store.docs;
      StartNewDay(newUser, now, pick, roll);
      assert store.requests == requests1 + [NewDayRecord(u, now)];
      ApplyAllSnoc(docs1, [], NewDayRecord(u, now), store.failing);
      assert [] + [NewDayRecord(u, now)] == [NewDayRecord(u, now)];
      assert store.docs == ApplyUpdate(docs1, NewDayRecord(u, now), store.failing);
      ApplyAllSnoc(docs0, writes, NewDayRecord(u, now), store.failing);
    }

    /** The new-phrase part of `updatePhraseOnNewDay()`: a fresh phrase for `rolled`, written with `updatedPhraseDate` set to now. */
    method StartNewDay(rolled: User, now: Time, pick: nat, roll: nat -> nat)
      requires Valid()
      modifies this`currentUser, this`currentPhrase, this`letterVariants, defaults, store
      ensures Valid()
      ensures currentUser == Some(rolled.(done := false, updatedPhraseDate := now))
      ensures Persisted(store, [currentUser.value])
      ensures defaults == null ==> currentPhrase == old(currentPhrase) && letterVariants == old(letterVariants)
      ensures defaults != null ==>
        var chosen := ChooseIndex(|catalog|, rolled.phrases, pick);
        && defaults.currentPhraseIndex == Some(chosen as int)
        && currentPhrase == catalog[chosen]
        && letterVariants == LetterVariants.Spec(catalog[chosen], roll)
        && defaults.savedLetterVariants == Some(letterVariants)
        && defaults.lastUpdate == old(defaults.lastUpdate)
    {
      var newUser, chosen := PhraseUpdater.UpdateForNewDay(rolled, catalog, defaults, pick, roll);
      newUser := newUser.(updatedPhraseDate := now);
      var _ := store.UpdateUser(newUser);
      assert [newUser][1..] == [];
      currentUser := Some(newUser);
      SetPhrasesAndVariants(newUser, pick, roll);
    }

    /** The streak part of `updatePhraseOnNewDay()`: a record whose last sign-in is not today is rolled over and written. */
    method WriteStreakRollover(u: User, now: Time) returns (newUser: User)
      modifies store
      ensures newUser == StreakRollover(u, now)
      ensures Persisted(store, StreakWrites(u, now))
    {
      newUser := u;
      if !IsToday(u.lastSignIn, now) {
        if !IsYesterday(u.lastSignIn, now) {
          newUser := newUser.(streak := 1);
        }
        var _ := store.UpdateUser(newUser);
        assert [newUser][1..] == [];
      }
    }

    /** `toggleDoneStatus()`. */
    method ToggleDoneStatus(now: Time)
      requires currentUser.Some?
      modifies this`currentUser, store
      ensures currentUser == Some(ToggleDone(old(currentUser.value), now, StoredIndexOrZero(defaults)))
      ensures Persisted(store, [currentUser.value])
    {
      var user := currentUser.value;
      user := user.(done := !user.done);
      if user.done {
        user := user.(streak := user.streak + 1, lastSignIn := now);
      } else {
        var s := user.streak - 1;
        user := user.(streak := if 1 > s then 1 else s, lastSignIn := AddDays(now, -1));
      }
      var chosenIndex: int;
      if defaults != null {
        chosenIndex := defaults.currentPhraseIndex.GetOr(0);
      } else {
        chosenIndex := 0;
      }
      if user.done {
        if user.LastPhrase() != Some(chosenIndex) {
          user := user.(phrases := user.phrases + [chosenIndex]);
        }
      } else {
        var last := user.LastPhrase();
        if last.Some? && last.value == chosenIndex {
          user := user.(phrases := user.phrases[..|user.phrases| - 1]);
        }
      }
      currentUser := Some(user);
      var _ := store.UpdateUser(user);
      assert store.docs == ApplyAll(old(store.docs), [user], store.failing);
    }
  }
}
