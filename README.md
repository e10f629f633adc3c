# Yes: a verified model of the daily-phrase app

"Yes" shows its user one phrase a day, drawn as hand-lettered glyph images.
The app, its home-screen widget and a scheduled backend job share this state:

- the user's record (streak, used phrases, re-rolls, sign-in and phrase dates), kept in a `users` document store;
- the cached choice of today's phrase and its letter variants, kept in a shared defaults suite.

This project models the following in Dafny:

- **Daily state machine.** The home screen's view model starts a new day, grants and spends re-rolls, and toggles "done". `Home` models it, with the streak bookkeeping that comes with it.
- **Choosing the next phrase.** Pick an unused phrase when there is one, and otherwise any phrase (`Phrases`, `PhraseUpdater`, `PhraseManager`). Each letter or digit of the phrase gets a variant in 1…3 (`LetterVariants`).
- **The user store.** `updateUser` writes a fixed set of fields and merges them into an existing document; a fetch decodes a document (`UserService`).
- **Silent pushes, on the device.** The app delegate handles a silent "daily refresh" push and a token refresh (`YesApp`).
- **Silent pushes, on the backend.** An hourly job pushes to every user whose local hour is 0 (`Backend`).
- **Sign-in.** The nonce generator, the documents written for a new user, phone-code verification and sign-out (`Auth`).
- **Drawing the phrase.** A phrase becomes glyph names on the home screen and in the widget (`Glyphs`, `Widget`, `HomeScreen`). The streak is drawn as tally marks in groups of five (`Tally`).
- **Phone-number entry.** The "(123) 456-7890" formatter in its two copies, and the two text fields that use it (`PhoneFormat`).
- **Code entry.** The one-character code fields and their focus rules (`Otp`).

How the app's outside world is modelled:

- **Time.** An integer count of seconds on the device's local clock. A calendar day is `t / 86400` (`Clock`).
- **Randomness.** Every random choice is a parameter:
  - `pick` chooses `s[pick % |s|]`;
  - `roll(k)` gives the k-th variant;
  - the nonce's random bytes are an input sequence.
- **The shared defaults suite** is a `Defaults` object; a null reference stands for a suite that cannot be opened.
- **The document store** is a `UserStore` object. It keeps its documents, the log of every `updateUser` request, and whether the remote side currently rejects writes. A write that fails leaves the documents unchanged. The existence check before creating a user's document is modelled with a `readFails` input, since a failed `getDocument` takes the same branch as a missing document.

## Model

| member | source | states |
|---|---|---|
| SwiftArith.TruncDiv | Yes/Core/Streak/Views/TallyMarksView.swift:84 | Swift's `/` truncates toward zero: equal to Euclidean division on non-negative operands, negated on negative ones |
| SwiftArith.TruncRem | Yes/Core/Streak/Views/TallyMarksView.swift:85 | Swift's `%`: `a == q*b + r` with `r` in `[0, b)` for `a >= 0` and in `(-b, 0]` for `a < 0` |
| Clock.YesterdayIsNotToday | Yes/Core/Home/ViewModel/HomeViewModel.swift:163-164 | one day before `now` is yesterday and never today |
| Clock.DistantPastIsNeverToday | Yes/Service/PhraseManager.swift:24-25 | the `distantPast` default for a missing `lastUpdate` is never today, so a fresh suite always gets a phrase |
| Text.Lower | Yes/Core/Home/ViewModel/HomeViewModel.swift:26 | lower-casing keeps letters letters and digits digits, leaves no upper-case letter and changes nothing else |
| Text.LowerString | Yes/Core/Home/ViewModel/HomeViewModel.swift:26 | `lowercased()` keeps the length and lower-cases character by character |
| Text.Digits | Yes/Core/Authentication/Views/PhoneAuthView.swift:120 | `filter { $0.isNumber }` yields only digits and is no longer than its input |
| Text.CountAlnum | Yes/Core/Home/ViewModel/HomeViewModel.swift:26-30 | the number of letters and digits is at most the length |
| Text.DigitsAppend | Yes/Core/Authentication/Views/PhoneNumberTextField.swift:29 | the digit filter distributes over concatenation |
| Text.DigitsOfDigits | Yes/Core/Authentication/Views/PhoneAuthView.swift:120 | the digit filter leaves a string of digits unchanged |
| Text.DigitsOfNonDigits | Yes/Core/Authentication/Views/PhoneAuthView.swift:120 | the digit filter removes everything from a string without digits |
| Text.CountAlnumLower | Yes/Core/Home/ViewModel/HomeViewModel.swift:26-27 | lower-casing the phrase does not change how many variants it needs |
| Text.CountAlnumAppend | Yes/Core/Home/ViewModel/HomeViewModel.swift:26-30 | the count of letters and digits is additive over concatenation |
| Text.Split | YesWidget/YesWidget.swift:78 | `components(separatedBy: " ")` gives at least one word and no word holds a space |
| Text.JoinSplit | YesWidget/YesWidget.swift:78 | joining the words with single spaces gives back the phrase |
| Text.SplitJoin | YesWidget/YesWidget.swift:78 | splitting space-free words joined by spaces gives back the words |
| Text.SplitWord | YesWidget/YesWidget.swift:78 | a phrase without spaces is a single word |
| Phrases.AvailableIndices | Yes/Service/PhraseUpdater.swift:18-20 | the available indices are exactly the catalog indices not yet used, in increasing order |
| Phrases.RandomElement | Yes/Service/PhraseUpdater.swift:21 | `randomElement()` of a non-empty list returns one of its elements |
| Phrases.RandomElementReaches | Yes/Service/PhraseUpdater.swift:21 | every element of the list can be the random choice |
| Phrases.ChooseIndex | Yes/Service/PhraseUpdater.swift:18-21 | the chosen index is in the catalog, and unused unless every index has been used |
| Phrases.ChooseIndexReaches | Yes/Service/PhraseUpdater.swift:18-21 | every index the rule permits (unused, or any once all are used) can be chosen |
| Phrases.ReachesUnused | Yes/Service/PhraseUpdater.swift:18-21 | while some index is unused, every unused index can be chosen |
| Phrases.ReachesAny | Yes/Service/PhraseUpdater.swift:21 | once every index is used, the fallback can choose any index |
| Phrases.OnlyCandidateIsChosen | Yes/Service/PhraseUpdater.swift:18-21 | with phrases 0 and 1 used in a catalog of three, phrase 2 is chosen whatever the random pick |
| LetterVariants.Variant | Yes/Core/Home/ViewModel/HomeViewModel.swift:28 | `Int.random(in: 1...3)` lies in 1…3 |
| LetterVariants.Generate | Yes/Core/Home/ViewModel/HomeViewModel.swift:24-32 | the loop yields one variant in 1…3 per letter or digit of the phrase, equal to the specification `Spec` |
| SharedDefaults.StoredIndexOrZero | Yes/Core/Home/ViewModel/HomeViewModel.swift:167-172 | `integer(forKey:)` reads 0 when the suite or the key is missing, and a non-negative index otherwise |
| UserService.UpdateData | Yes/Service/UserService.swift:31-42 | the update writes exactly the ten listed fields, never `id` or `email`, and writes missing token and time zone as "" |
| UserService.Decode | Yes/Model/User.swift:11-23 | a decoded record carries the document's id, and a document without `updatedPhraseDate` does not decode |
| UserService.DecodeAfterUpdate | Yes/Service/UserService.swift:31-44 | after an update, any document decodes to the record as written (id from the document, token and time zone defaulted to "") |
| UserService.ApplyUpdate | Yes/Service/UserService.swift:24-47 | a write keeps the set of documents; with no id, a remote failure or no document it changes nothing; otherwise it merges the fields into the document |
| UserService.ApplyAllSnoc | Yes/Service/UserService.swift:44-46 | a run of updates followed by one more is that update applied to the run's result |
| UserService.ApplyAllConcat | Yes/Service/UserService.swift:44-46 | two runs of updates compose into one |
| UserService.UpdateKeepsOtherFields | Yes/Service/UserService.swift:31-44 | `updateData` merges: fields outside the written set (such as `email`) are kept as they were |
| UserService.UpdateThenFetch | Yes/Service/UserService.swift:12-47 | fetching after a successful update returns the record as written |
| UserService.FetchUser | Yes/Service/UserService.swift:12-22 | a fetch returns a user only for an existing document that decodes; for a missing document it returns nothing |
| UserService.UserStore.UpdateUser | Yes/Service/UserService.swift:24-47 | the request is logged, the documents become `ApplyUpdate` of the old ones, and the error tells which guard failed |
| UserService.CreateResult | Yes/Core/Authentication/ViewModel/AuthViewModel.swift:155-181 | a document the read found is kept; a rejected write changes nothing; otherwise the new document is stored under the id; other ids are untouched |
| UserService.ExistingNeverOverwritten | Yes/Core/Authentication/ViewModel/AuthViewModel.swift:155-158 | after a read that succeeds, an existing document, and so the user fetched from it, is never overwritten |
| UserService.FailedReadOverwrites | Yes/Core/Authentication/ViewModel/AuthViewModel.swift:155-172 | a read that fails while writes succeed replaces an existing document with the fresh one |
| UserService.UserStore.CreateIfAbsent | Yes/Core/Authentication/ViewModel/AuthViewModel.swift:155-181 | the documents become `CreateResult` of the old ones: `setData` runs unless the read returned an existing document, so a failed read writes over an existing one, and a rejected `setData` changes nothing |
| PhraseUpdater.UpdateForNewDay | Yes/Service/PhraseUpdater.swift:13-38 | only `done` is cleared; the cache receives the chosen index and variants for that phrase; `lastUpdate` is untouched |
| PhraseUpdater.ChoosesUnusedWhenPossible | Yes/Service/PhraseUpdater.swift:18-21 | while some phrase is unused, the new phrase is an unused one |
| PhraseUpdater.ExhaustedCatalogRestarts | Yes/Service/PhraseUpdater.swift:21 | once every phrase is used, every phrase can come again |
| PhraseManager.UpdateDailyPhrase | Yes/Service/PhraseManager.swift:16-46 | the completion runs once; on the day of the last update nothing changes; otherwise a random phrase, its variants and `lastUpdate == now` are cached |
| PhraseManager.AnyIndexCanBePicked | Yes/Service/PhraseManager.swift:28-31 | the widget-side choice ignores used phrases: any index can be picked |
| Home.RerollGrantEffect | Yes/Core/Home/ViewModel/HomeViewModel.swift:35-49 | a re-roll is granted (count + 1, date = now) exactly when seven days have passed since the last grant; otherwise the record is unchanged |
| Home.RerollGrantIdempotent | Yes/Core/Home/ViewModel/HomeViewModel.swift:37-40 | checking eligibility twice at the same moment grants at most one re-roll |
| Home.StreakRolloverNeverIncrements | Yes/Core/Home/ViewModel/HomeViewModel.swift:75-80 | starting a day changes only the streak, only to 1, and only when the last sign-in was neither today nor yesterday |
| Home.NewDayRecordIsToday | Yes/Core/Home/ViewModel/HomeViewModel.swift:87-94 | after the new-day update the phrase date is today, `done` is false, and the used phrases and identity are kept |
| Home.ToggleOnEffect | Yes/Core/Home/ViewModel/HomeViewModel.swift:156-177 | marking done adds one to the streak, sets the sign-in to now and ends the used list with the cached index, appending at most one |
| Home.ToggleOffEffect | Yes/Core/Home/ViewModel/HomeViewModel.swift:156-182 | un-marking lowers the streak to no less than 1, sets the sign-in to yesterday and removes the last used phrase only if it is the cached one |
| Home.ToggleOnThenOff | Yes/Core/Home/ViewModel/HomeViewModel.swift:153-189 | on then off restores `done`; it restores the used list iff the cached phrase was not already last, and the streak iff it was at least 1; the sign-in ends at yesterday |
| Home.ResolveIndex | Yes/Core/Home/ViewModel/HomeViewModel.swift:114-124 | the phrase index used for display is always inside the catalog |
| Home.ResolveIndexKeepsCache | Yes/Core/Home/ViewModel/HomeViewModel.swift:114-124 | a cached index inside the catalog is kept; otherwise an unused phrase is chosen when one exists |
| Home.HomeViewModel.constructor | Yes/Core/Home/ViewModel/HomeViewModel.swift:13-14 | the view model starts with phrase "default" and no variants |
| Home.HomeViewModel.SetPhrasesAndVariants | Yes/Core/Home/ViewModel/HomeViewModel.swift:108-146 | with no suite nothing changes; otherwise the shown phrase is the cached one if valid (else a chosen one, then cached), and the shown variants are the cached ones (else generated and cached) |
| Home.HomeViewModel.CheckRerollEligibility | Yes/Core/Home/ViewModel/HomeViewModel.swift:35-49 | the record becomes `RerollGrant` of the old one, and it is written to the store exactly when a re-roll was granted |
| Home.HomeViewModel.PerformReroll | Yes/Core/Home/ViewModel/HomeViewModel.swift:52-68 | with no re-rolls left nothing changes; otherwise one re-roll is spent, `done` is cleared and saved, and a new phrase and its variants are cached and shown |
| Home.HomeViewModel.UpdatePhraseOnNewDay | Yes/Core/Home/ViewModel/HomeViewModel.swift:71-106 | a stale sign-in writes the streak rollover; a phrase already updated today is only redisplayed; otherwise a new phrase is chosen and the new-day record is saved and held |
| Home.HomeViewModel.WriteStreakRollover | Yes/Core/Home/ViewModel/HomeViewModel.swift:75-86 | the returned record is the streak rollover of the input, and exactly that record is written when the last sign-in was not today, nothing otherwise |
| Home.HomeViewModel.StartNewDay | Yes/Core/Home/ViewModel/HomeViewModel.swift:92-105 | the held record is the rolled record with `done` cleared and `updatedPhraseDate` set to now, it is written once, and the cache and screen show the newly chosen phrase and its letter variants |
| Home.HomeViewModel.ToggleDoneStatus | Yes/Core/Home/ViewModel/HomeViewModel.swift:153-189 | the record becomes `ToggleDone` with the cached index (0 if none) and is written once |
| YesApp.DailyRecordKeepsStreak | Yes/App/YesApp.swift:129-137 | the background update keeps the streak and used phrases and dates the phrase today; it agrees with the home screen's new-day record exactly when that record would not reset the streak |
| YesApp.App.UpdateDailyData | Yes/App/YesApp.swift:116-145 | with no signed-in user, no record, or a phrase already dated today nothing is written; otherwise a new phrase is cached and the record is saved with `done` false and today's date |
| YesApp.App.DidReceiveRemoteNotification | Yes/App/YesApp.swift:85-103 | the handler always reports new data; only a push whose `dailyRefresh` is a string runs the daily update, and any other push changes nothing |
| YesApp.App.DidReceiveRegistrationToken | Yes/App/YesApp.swift:54-75 | a new token is saved on the current record; without a token or a record nothing is written |
| YesApp.TwoPushesSameDay | Yes/App/YesApp.swift:116-145 | the in-memory record is never refreshed, so a second push on the same day writes the record and picks a phrase again |
| YesApp.TokenRefreshChangesOnlyToken | Yes/App/YesApp.swift:60-65 | saving a refreshed token differs from saving the record only in the `fcmToken` field |
| Backend.SilentPush | backend/functions/index.js:38-50 | the message is addressed to the user's token |
| Backend.SendSilentPush | backend/functions/index.js:17-60 | the serial loop produces exactly the attempts and completion of the specification `Scan` |
| Backend.VisitUser | backend/functions/index.js:18-59 | one document throws out of the run exactly when it `Aborts`, and otherwise makes exactly the sends of the specification `Step` |
| Backend.ScanTargets | backend/functions/index.js:17-35 | the run completes iff no document's time zone is unknown; a completed run attempts exactly the users with a token, a time zone and local hour 0, in order |
| Backend.FailuresDoNotChangeTargets | backend/functions/index.js:54-59 | a failed send is caught, so delivery failures change neither who is attempted nor whether the run completes |
| Backend.AtMostOneAttemptPerDocument | backend/functions/index.js:17-55 | no more attempts than documents, and each attempt is the silent push to an eligible user's token |
| Backend.OneSendPerUser | backend/functions/index.js:17-55 | with distinct document ids no user is targeted twice in a run, and every target is a stored user |
| Backend.SilentPushShape | backend/functions/index.js:38-50 | the message carries only `dailyRefresh: "true"`, background push type, priority 5 and content-available 1 |
| Backend.MessageRecognizedByClient | backend/functions/index.js:40 | the app recognises the backend's message as a daily refresh |
| Backend.SkippedUsers | backend/functions/index.js:22-35 | a user without a token or a time zone, or not at local midnight, is skipped; an eligible one gets one attempt |
| Backend.UnknownZoneStopsRun | backend/functions/index.js:28-30 | an unknown time zone stops the run: users after it get nothing, users before it were already sent |
| Auth.CharsetShape | Yes/Core/Authentication/ViewModel/AuthViewModel.swift:209-210 | the nonce alphabet has 64 characters and no 'W' |
| Auth.Accepted | Yes/Core/Authentication/ViewModel/AuthViewModel.swift:229-232 | only random bytes below 64 are used, each naming an alphabet position |
| Auth.AcceptedAppend | Yes/Core/Authentication/ViewModel/AuthViewModel.swift:214-234 | the bytes accepted from consecutive batches are the accepted bytes of their concatenation |
| Auth.Encode | Yes/Core/Authentication/ViewModel/AuthViewModel.swift:229-230 | each accepted byte becomes one alphabet character |
| Auth.TakeBatch | Yes/Core/Authentication/ViewModel/AuthViewModel.swift:224-233 | one batch appends its accepted bytes' characters until the length is reached, keeping the running invariant |
| Auth.RandomNonceString | Yes/Core/Authentication/ViewModel/AuthViewModel.swift:207-236 | the nonce has the requested length, uses only alphabet characters, and encodes the first accepted random bytes in order |
| Auth.NewDocumentsShape | Yes/Core/Authentication/ViewModel/AuthViewModel.swift:126-172 | both new-user documents start with streak 1, no phrases, one re-roll and `done` false; Apple's sign-in date is 1 January 2025 and the phone's is now; neither document decodes |
| Auth.NewDocumentReadableAfterUpdate | Yes/Core/Authentication/ViewModel/AuthViewModel.swift:160-172 | a new phone user's document cannot be fetched until a full `updateUser` has written `updatedPhraseDate` |
| Auth.AuthViewModel.SignOut | Yes/Core/Authentication/ViewModel/AuthViewModel.swift:32-35 | signing out clears the session |
| Auth.AuthViewModel.FetchUser | Yes/Core/Authentication/ViewModel/AuthViewModel.swift:37-43 | the current user becomes the decoded document of the session's user; with no session or no decodable document it is kept |
| Auth.AuthViewModel.CreateUserIfNeeded | Yes/Core/Authentication/ViewModel/AuthViewModel.swift:114-149 | an Apple sign-in writes the Apple document exactly as `CreateResult` says: not over a document the read found, over one the read failed to return, and not at all when the write is rejected |
| Auth.AuthViewModel.CreateUserIfNeededForPhone | Yes/Core/Authentication/ViewModel/AuthViewModel.swift:152-183 | a phone sign-in writes the phone document exactly as `CreateResult` says: not over a document the read found, over one the read failed to return, and not at all when the write is rejected |
| Auth.AuthViewModel.VerifySMSCode | Yes/Core/Authentication/ViewModel/AuthViewModel.swift:270-302 | no stored verification id or a failed sign-in reports false and changes nothing; otherwise the session is set and the phone document is created as `CreateResult` says; a first sign-in, or a failed read that replaced the record, leaves the current user unloaded; after a successful read a returning user's record is loaded when it decodes (kept as it was when it does not); when the read fails and the write is rejected, the existing record is loaded if it decodes |
| Glyphs.VariantAt | YesWidget/YesWidget.swift:95-96 | the stored variant at the global index, or 1 past the end of the list |
| Glyphs.Decimal | YesWidget/YesWidget.swift:97 | interpolation of a one-digit variant is that digit |
| Glyphs.WordGlyphs | YesWidget/YesWidget.swift:93-101 | a word draws one glyph per letter or digit |
| Glyphs.SumLengthsIsConcatLength | Yes/Core/Home/Views/HomeView.swift:46 | a word's offset is the length of the earlier words run together |
| Glyphs.WordAligned | YesWidget/YesWidget.swift:93-101 | in a word of letters and digits, the k-th glyph uses the variant at the word's offset plus k |
| Glyphs.PhraseAligned | YesWidget/YesWidget.swift:89-101 | in a phrase without punctuation, the k-th glyph overall uses the k-th stored variant, as generated |
| Glyphs.PunctuationShiftsVariants | YesWidget/YesWidget.swift:81-96 | punctuation shifts the lookup: ",a" with variants [3] draws "a_1", not the "a_3" it was generated with |
| Glyphs.NoVariantsMeansVariantOne | YesWidget/YesWidget.swift:96 | with no stored variants every glyph of a phrase is variant 1 |
| Glyphs.WordVariantOne | YesWidget/YesWidget.swift:93-97 | with no stored variants every glyph of a word is variant 1 |
| Widget.GetCurrentPhrase | YesWidget/YesWidget.swift:53-58 | the widget shows a catalog phrase: the stored index modulo the catalog size, phrase 0 when nothing is stored |
| Widget.LetterVariants | YesWidget/YesWidget.swift:69-72 | the widget's variants are the stored list, or empty when the suite or key is missing |
| Widget.WordsWithStartIndices | YesWidget/YesWidget.swift:75-84 | the loop pairs each word with the total length of the words before it |
| Widget.EntryGlyphs | YesWidget/YesWidget.swift:86-104 | the widget draws one glyph per letter or digit of the current phrase's words, and for a phrase without punctuation the k-th glyph uses the k-th stored variant |
| Widget.GlyphCount | YesWidget/YesWidget.swift:89-101 | a phrase draws as many glyphs as its words have letters and digits |
| HomeScreen.GlyphSize | Yes/Core/Home/Views/HomeView.swift:45 | glyphs are full size exactly for words of at most ten characters, and never larger |
| HomeScreen.ScreenGlyphs | Yes/Core/Home/Views/HomeView.swift:22-58 | the home screen draws one image per letter or digit of the current phrase, and for a phrase without punctuation the k-th image uses the k-th stored variant |
| HomeScreen.OnAppear | Yes/Core/Home/Views/HomeView.swift:109-117 | the welcome shows iff not seen yet; the re-roll grant and then the new-day update apply in that order, and their writes reach the store in that order |
| Tally.SumOfFives | Yes/Core/Streak/Views/TallyMarksView.swift:86 | `n` full groups hold `5 * n` marks |
| Tally.Groups | Yes/Core/Streak/Views/TallyMarksView.swift:83-91 | a count is drawn as groups of five with a last group of 1…5; for a count of at least 0 the groups add up to it and there are `ceil(count/5)` of them; zero or below draws nothing |
| Tally.OffsetPeriodic | Yes/Core/Streak/Views/TallyMarksView.swift:93-101 | the jitter repeats every four groups, and the four offsets are distinct |
| Tally.TallyGroup | Yes/Core/Streak/Views/TallyMarksView.swift:53-78 | a group draws at most four strokes, and a slash exactly when it has five marks |
| Tally.GroupsDrawTheirCount | Yes/Core/Streak/Views/TallyMarksView.swift:64-74 | every group of 1…5 marks draws exactly that many marks |
| PhoneFormat.FormatDigits | Yes/Core/Authentication/Views/PhoneNumberTextField.swift:47-75 | the three copy loops produce the layout `Layout` of the digits |
| PhoneFormat.FormatPhoneNumber | Yes/Core/Authentication/Views/PhoneAuthView.swift:119-149 | the SwiftUI formatter lays out the digits of its input |
| PhoneFormat.LayoutKeepsDigits | Yes/Core/Authentication/Views/PhoneAuthView.swift:119-149 | the digits of the layout are the first ten digits of the input, in order |
| PhoneFormat.LayoutOfFirstTen | Yes/Core/Authentication/Views/PhoneAuthView.swift:141-146 | digits after the tenth do not affect the layout |
| PhoneFormat.Separators | Yes/Core/Authentication/Views/PhoneAuthView.swift:125-146 | "(" appears iff there is a digit, ")" iff there are at least three, "-" iff there are at least seven |
| PhoneFormat.TenDigits | Yes/Core/Authentication/Views/PhoneAuthView.swift:119-149 | ten digits give "(ddd) ddd-dddd", fourteen characters |
| PhoneFormat.FormatIdempotent | Yes/Core/Authentication/Views/PhoneAuthView.swift:49-58 | formatting a formatted number changes nothing |
| PhoneFormat.FormattersAgreeOnDigits | Yes/Core/Authentication/Views/PhoneAuthView.swift:120 | on a digit string the SwiftUI and UIKit formatters agree |
| PhoneFormat.PhoneAuthField.constructor | Yes/Core/Authentication/Views/PhoneAuthView.swift:13-14 | both texts start empty |
| PhoneFormat.PhoneAuthField.OnChange | Yes/Core/Authentication/Views/PhoneAuthView.swift:49-58 | a shorter text is only remembered; otherwise the text becomes the formatted number, is remembered, and is reassigned exactly when formatting changed it |
| PhoneFormat.PhoneAuthField.Edit | Yes/Core/Authentication/Views/PhoneAuthView.swift:49-58 | after an edit and the handler's re-run, the text is the edit (if shorter) or its formatted form, and the remembered text equals it: the cycle stops after one reassignment |
| PhoneFormat.PhoneNumberTextField.constructor | Yes/Core/Authentication/Views/PhoneNumberTextField.swift:12 | the field starts with the bound raw text and no text of its own |
| PhoneFormat.PhoneNumberTextField.ShouldChangeCharactersIn | Yes/Core/Authentication/Views/PhoneNumberTextField.swift:21-44 | the system's edit is always refused; an invalid range changes nothing; otherwise the raw text becomes the digits of the edited text and the field shows their layout |
| PhoneFormat.PhoneNumberTextField.UpdateUIView | Yes/Core/Authentication/Views/PhoneNumberTextField.swift:91-96 | the field shows the raw digits' layout, and is written exactly when it showed something else |
| PhoneFormat.RawTextMayExceedDisplay | Yes/Core/Authentication/Views/PhoneNumberTextField.swift:29-35 | past ten digits the bound raw text holds more digits than the field shows |
| Otp.Truncate | Yes/Core/Authentication/Views/OTPTextField.swift:42-49 | a field holding more than one character keeps exactly one, its first or its last; shorter values are kept |
| Otp.TruncateKeepsNewCharacter | Yes/Core/Authentication/Views/OTPTextField.swift:42-48 | typing a character after or before the previous one keeps the newly typed character |
| Otp.TruncateIdempotent | Yes/Core/Authentication/Views/OTPTextField.swift:42-49 | truncating again changes nothing |
| Otp.FocusFollowsTyping | Yes/Core/Authentication/Views/OTPTextField.swift:52-56 | typing into the focused field moves the focus to the next field, and the last field gives up the focus |
| Otp.ClearingMayFocusNoField | Yes/Core/Authentication/Views/OTPTextField.swift:57-60 | clearing the first field, or clearing with no focus, moves the focus to -1, which names no field |
| Otp.PasteMayFocusNoField | Yes/Core/Authentication/Views/OTPTextField.swift:40-56 | a paste into the next-to-last field moves the focus twice, to `numberOfFields`, which names no field |
| Otp.OtpFields.constructor | Yes/Core/Authentication/Views/OTPTextField.swift:14-19 | the row starts with the bound values, no focus and an empty previous value |
| Otp.OtpFields.OnEditingChanged | Yes/Core/Authentication/Views/OTPTextField.swift:24-28 | beginning to edit remembers the field's text |
| Otp.OtpFields.OnChange | Yes/Core/Authentication/Views/OTPTextField.swift:40-61 | only the changed field is rewritten, to its truncation; the focus moves as `FocusAfter` says; a rewrite happens exactly for values longer than one |
| Otp.OtpFields.Enter | Yes/Core/Authentication/Views/OTPTextField.swift:40-61 | an entry leaves only its field changed, truncated; a truncated entry moves the focus twice, once per run of the handler |
| Otp.PasteSkipsAField | Yes/Core/Authentication/Views/OTPTextField.swift:40-61 | a paste into any focused field but the last moves the focus two fields on and leaves one character |
| Otp.ShouldChange | Yes/Core/Authentication/Views/CustomOTPTextField.swift:36-54 | an edit is allowed iff it leaves at most one character and is not a backspace on an empty field; "delete backward" fires iff it is one |
| Otp.OneCharacterPerField | Yes/Core/Authentication/Views/CustomOTPTextField.swift:40-44 | a character typed into an empty field is allowed; a second character, before or after, is refused |
| Otp.Backspace | Yes/Core/Authentication/Views/CustomOTPTextField.swift:46-53 | deleting the field's character is allowed; a backspace on an empty field is refused and fires "delete backward" |
| Otp.OtpField.DidChangeSelection | Yes/Core/Authentication/Views/CustomOTPTextField.swift:25-33 | the bound text copies the field's text, and non-empty text moves the focus to the next index |
| Otp.OtpField.DidBeginEditing | Yes/Core/Authentication/Views/CustomOTPTextField.swift:56-58 | the field takes the focus |
| Otp.OtpField.UpdateUIView | Yes/Core/Authentication/Views/CustomOTPTextField.swift:76-83 | the field shows the bound text and holds the keyboard iff it is focused |
| Otp.OtpField.Type | Yes/Core/Authentication/Views/CustomOTPTextField.swift:36-54 | a refused edit changes nothing; an allowed one is applied, leaves at most one character, and moves the focus on when the field is non-empty |
| Otp.TypeDigitMovesOn | Yes/Core/Authentication/Views/CustomOTPTextField.swift:25-58 | a digit typed into the focused empty field fills it and hands the focus to the next field |

## Left out

- **I/O and platforms.** Firebase Auth, Firestore networking, Firebase Messaging, `WidgetCenter` reloads and `NotificationCenter` posts are left out. Console output and haptics are left out too. Each store request is modelled by its effect on the documents.
- **Asynchronous code.** `DispatchQueue.main.async` assignments and completion handlers are modelled as taking effect at once, in program order; interleavings are not modelled.
- **Calendar arithmetic.** Days are whole 86400-second days of the local clock. Time zones, daylight-saving changes and `Calendar.date(byAdding:)` returning nil are not modelled.
- **Characters.** `isLetter`, `isNumber` and `lowercased()` are modelled on ASCII. Other Unicode letters and digits, and grapheme clusters, are not modelled. NSRange offsets are taken as character offsets, not UTF-16 units.
- **The phrase catalog.** Its contents are not part of this model; it is any non-empty list of phrases.
- **Other sign-in code.** `configureAppleRequest`, `signInWithApple`, `sha256`, `sendPhoneVerificationCode`, `backgroundFetchUser` and `updateUserFCMTokenAndTimezone` are not modelled. They are Firebase or CryptoKit calls. The last writes only `fcmToken` and `timezone`, so it does not make a new document decodable.
- **Layout.** `FlowLayout` geometry, frames, fonts, animations, the widget timeline (next midnight) and `makeUIView` are left out.
- **The caret.** Its placement in `PhoneNumberTextField` is left out.
- **Backend logging and the store query** are left out. The documents are a list in query order; `toLocaleString` becomes a `localHour` parameter, where `None` stands for an unknown time zone.
- Auth.RandomNonceString: the random bytes are an input, so it requires a whole number of 16-byte batches that hold enough accepted bytes. The generator traps when `SecRandomCopyBytes` fails; that trap is not modelled.
- Tally.Groups: it requires `count > -5`. For a count of -5 or below `count / 5` is negative and `Array(repeating:count:)` traps.
- Widget.GetCurrentPhrase: it requires a non-negative stored index. For a negative one Swift's `%` is negative and the array access traps.
- Otp.OtpFields.OnChange: it requires `oldValue` to be one character whenever the new value is longer than one, since `Character(oldValue)` traps otherwise. A single character is taken to be a single `Character`.
- Otp.OtpField.DidChangeSelection: the source sets the focus asynchronously; the model sets it at once.
- Otp.OtpField.Type: `NSString` replacement with a range outside the text traps, so a valid range is required.
- UserService.Decode: a stored `id` field, which both new-user documents carry and `updateUser` never removes, is taken to be ignored in favour of the document ID. Whether the `@DocumentID` decoder instead rejects such a document as a field-name conflict depends on the Firestore SDK version and is not modelled, so the read-back lemmas (`UserService.DecodeAfterUpdate`, `Auth.NewDocumentReadableAfterUpdate`) rest on that assumption.
- Backend.SendSilentPush: the local hour is read once per run, as one `localHour` function for every document. The source reads the clock again for each user inside the serial loop, so a run that crosses an hour boundary can treat two users in the same time zone differently; the model does not capture that.
- **Two handler re-runs are assumptions.** `PhoneFormat.PhoneAuthField.Edit` and `Otp.OtpFields.Enter` assume a handler's own write fires it exactly once more.

## Code over design

Where the code does something other than what its own comments, names or error handling aim at, the model follows the code. Each item names the intent it is measured against:

- **Re-roll guard.** Intent: a user's re-roll credits never go negative. The code keeps that only through the `rerolls > 0` guard in `performReroll` (HomeViewModel.swift:53). A stored count of zero or below is left as it is, not repaired.
- **Un-marking "done".** Intent: the comment "lastsignin === last streak day" (HomeViewModel.swift:152). Un-marking sets `lastSignIn` to one day before now. That is not necessarily the earlier streak day, and the earlier sign-in is not restored.
- **Backend time zones.** Intent: the comment at index.js:16 and the `try`/`catch` around the send aim to keep one user's failure from stopping the others. An unknown time zone makes `toLocaleString` throw outside that `try`, so the whole scheduled run is aborted instead of one user being skipped.
- **Creating a user's document.** Intent: the doc comments "if one doesn't exist" (AuthViewModel.swift:113, 151). The code writes the new-user document whenever `getDocument` does not return an existing document. A failed read therefore overwrites a returning user's document with a fresh one (streak 1, no phrases) instead of leaving it alone (`UserService.FailedReadOverwrites`).
- **Variant lookup.** Intent: the generator makes one variant per letter or digit, to be drawn with that character. The home screen and the widget look variants up by character position, counting punctuation, so the two agree only for phrases without punctuation (`Glyphs.PhraseAligned`, `Glyphs.PunctuationShiftsVariants`).
