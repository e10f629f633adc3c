/**
 * The per-user record kept in the `users` collection and decoded as the
 * Swift `User` struct.  `id` comes from the document's path (`@DocumentID`);
 * `id`, `fullName`, `fcmToken` and `timezone` are optional and every other
 * field is required.  `phrases` holds indices into the phrase catalog that
 * the user has completed.
 */
module UserModel {
  import opened Wrappers
  import opened Clock

  datatype User = User(
    id: Option<string>,
    fullName: Option<string>,
    streak: int,
    phrases: seq<int>,
    rerolls: int,
    rerollDate: Time,
    lastSignIn: Time,
    done: bool,
    fcmToken: Option<string>,
    timezone: Option<string>,
    updatedPhraseDate: Time)
  {
    /** `phrases.last`. */
    function LastPhrase(): Option<int> {
      if |phrases| == 0 then None else Some(phrases[|phrases| - 1])
    }
  }

  /** Every field but `fullName` and `id` may be rewritten; these two never are. */
  predicate SameIdentity(a: User, b: User) {
    a.id == b.id && a.fullName == b.fullName
  }
}
