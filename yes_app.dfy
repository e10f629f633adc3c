/**
 * The app delegate's push and token handlers and the
 * `BackgroundTaskManager.updateDailyData()` it runs for a silent push.
 * The in-memory record (`UserService.shared.currentUser`) is read into a
 * local copy, which is changed and written; the shared record itself is
 * never reassigned here.  Firebase Auth's own handling of a notification
 * and the widget reload are not modelled.
 */
module YesApp {
  import opened Wrappers
  import opened Clock
  import opened UserModel
  import opened Phrases
  import LetterVariants
  import opened SharedDefaults
  import opened UserService
  import PhraseUpdater
  import Home

  /** The key whose presence marks a silent push as the daily refresh. */
  const DailyRefreshKey: string := "dailyRefresh"

  /** A value in a notification's `userInfo` dictionary. */
  datatype PushValue = StringValue(s: string) | OtherValue

  datatype FetchResult = NewData | NoData | Failed

  /** `userInfo["dailyRefresh"] as? String` succeeds. */
  predicate IsDailyRefresh(userInfo: map<string, PushValue>) {
    DailyRefreshKey in userInfo && userInfo[DailyRefreshKey].StringValue?
  }

  /** The record the daily update writes: a new phrase, the day stamped, and nothing else touched. */
  function DailyRecord(u: User, now: Time): User {
    u.(done := false, updatedPhraseDate := now)
  }

  /**
   * The silent-push update leaves the streak alone; it agrees with the
   * in-app rollover exactly when that rollover would not reset the streak.
   */
  lemma DailyRecordKeepsStreak(u: User, now: Time)
    ensures DailyRecord(u, now).streak == u.streak
    ensures DailyRecord(u, now).phrases == u.phrases && SameIdentity(DailyRecord(u, now), u)
    ensures IsToday(DailyRecord(u, now).updatedPhraseDate, now)
    ensures DailyRecord(u, now) == Home.NewDayRecord(u, now) <==>
      (IsToday(u.lastSignIn, now) || IsYesterday(u.lastSignIn, now) || u.streak == 1)
  {
    if DailyRecord(u, now) == Home.NewDayRecord(u, now) {
      assert DailyRecord(u, now).streak == Home.NewDayRecord(u, now).streak;
    }
  }

  /** The state the app's handlers work on. */
  class App {
    /** `Auth.auth().currentUser != nil`. */
    var signedIn: bool
    /** `UserService.shared.currentUser`. */
    var currentUser: Option<User>
    const catalog: seq<string>
    const defaults: Defaults?
    const store: UserStore

    ghost predicate Valid()
      reads this, defaults
    {
      ValidCatalog(catalog) && (defaults != null ==> defaults.Valid())
    }

    constructor (signedIn: bool, currentUser: Option<User>, catalog: seq<string>, defaults: Defaults?, store: UserStore)
      requires ValidCatalog(catalog) && (defaults != null ==> defaults.Valid())
      ensures Valid()
      ensures this.signedIn == signedIn && this.currentUser == currentUser
      ensures this.catalog == catalog && this.defaults == defaults && this.store == store
    {
      this.signedIn := signedIn;
      this.currentUser := currentUser;
      this.catalog := catalog;
      this.defaults := defaults;
      this.store := store;
    }

    /** Whether `updateDailyData()` goes past its guards at `now`. */
    predicate DailyUpdateRuns(now: Time)
      reads this
    {
      signedIn && currentUser.Some? && !IsToday(currentUser.value.updatedPhraseDate, now)
    }

    /**
     * What `updateDailyData()` leaves behind: past its guards, the daily
     * record is written once and the phrase cache holds a fresh choice;
     * otherwise nothing is written.
     */
    twostate predicate DailyUpdated(now: Time, pick: nat, roll: nat -> nat)
      reads this, defaults, store
      requires old(Valid())
    {
      && currentUser == old(currentUser)
      && (!DailyUpdateRuns(now) ==> Persisted(store, []) && (defaults != null ==> unchanged(defaults)))
      && (DailyUpdateRuns(now) ==>
            && Persisted(store, [DailyRecord(currentUser.value, now)])
            && (defaults != null ==>
                  var chosen := ChooseIndex(|catalog|, currentUser.value.phrases, pick);
                  && defaults.currentPhraseIndex == Some(chosen as int)
                  && defaults.savedLetterVariants == Some(LetterVariants.Spec(catalog[chosen], roll))
                  && defaults.lastUpdate == old(defaults.lastUpdate)))
    }

    /** `BackgroundTaskManager.updateDailyData()`. */
    method UpdateDailyData(now: Time, pick: nat, roll: nat -> nat)
      requires Valid()
      modifies defaults, store
      ensures Valid()
      ensures DailyUpdated(now, pick, roll)
    {
      if !signedIn {
        return;
      }
      if currentUser.Some? {
        var user := currentUser.value;
        if IsToday(user.updatedPhraseDate, now) {
          return;
        }
        var chosen;
        user, chosen := PhraseUpdater.UpdateForNewDay(user, catalog, defaults, pick, roll);
        user := user.(updatedPhraseDate := now);
        var _ := store.UpdateUser(user);
        assert store.docs == ApplyAll(old(store.docs), [user], store.failing);
      }
    }

    /** `application(_:didReceiveRemoteNotification:fetchCompletionHandler:)`; the result is what the handler reports. */
    method DidReceiveRemoteNotification(userInfo: map<string, PushValue>, now: Time, pick: nat, roll: nat -> nat)
      returns (result: FetchResult)
      requires Valid()
      modifies defaults, store
      ensures Valid()
      ensures result == NewData
      ensures !IsDailyRefresh(userInfo) ==> Persisted(store, []) && (defaults != null ==> unchanged(defaults))
      ensures IsDailyRefresh(userInfo) ==> DailyUpdated(now, pick, roll)
    {
      if DailyRefreshKey in userInfo && userInfo[DailyRefreshKey].StringValue? {
        UpdateDailyData(now, pick, roll);
      }
      result := NewData;
    }

    /** `messaging(_:didReceiveRegistrationToken:)`: writes the new token on a copy of the current record. */
    method DidReceiveRegistrationToken(fcmToken: Option<string>)
      modifies store
      ensures fcmToken.Some? && currentUser.Some? ==> Persisted(store, [currentUser.value.(fcmToken := fcmToken)])
      ensures fcmToken.None? || currentUser.None? ==> Persisted(store, [])
    {
      if fcmToken.None? {
        return;
      }
      var newToken := fcmToken.value;
      if currentUser.Some? {
        var user := currentUser.value;
        user := user.(fcmToken := Some(newToken));
        var _ := store.UpdateUser(user);
      }
    }
  }

  /**
   * Because the daily update never writes its result back into
   * `currentUser`, its guard keeps reading the old `updatedPhraseDate`: a
   * second silent push on the same day writes the record and re-rolls the
   * phrase again.
   */
  method TwoPushesSameDay(app: App, userInfo: map<string, PushValue>, now: Time, pick1: nat, pick2: nat, roll: nat -> nat)
    requires app.Valid() && IsDailyRefresh(userInfo) && app.DailyUpdateRuns(now)
    modifies app.defaults, app.store
    ensures Persisted(app.store, [DailyRecord(app.currentUser.value, now), DailyRecord(app.currentUser.value, now)])
    ensures app.defaults != null ==>
      app.defaults.currentPhraseIndex == Some(ChooseIndex(|app.catalog|, app.currentUser.value.phrases, pick2) as int)
  {
    var first := app.DidReceiveRemoteNotification(userInfo, now, pick1, roll);
    var second := app.DidReceiveRemoteNotification(userInfo, now, pick2, roll);
    ApplyAllSnoc(old(app.store.docs), [DailyRecord(app.currentUser.value, now)], DailyRecord(app.currentUser.value, now), app.store.failing);
  }

  /** A token refresh changes only the token of the record it writes. */
  lemma TokenRefreshChangesOnlyToken(u: User, token: string)
    ensures UpdateData(u.(fcmToken := Some(token))) == UpdateData(u)["fcmToken" := Str(token)]
  {
  }
}
