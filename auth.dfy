/**
 * AuthViewModel: the sign-in nonce, the documents written for a new user,
 * and the session bookkeeping around phone sign-in.  Firebase Auth, the
 * Apple credential exchange, SHA-256 hashing and the system random source
 * are outside the model: sign-in outcomes, credential names and the random
 * bytes are parameters.
 */
module Auth {
  import opened Wrappers
  import opened Clock
  import opened UserModel
  import opened UserService

  newtype byte = x: int | 0 <= x < 256

  const DigitChars: string := "0123456789"
  /** Upper case letters; 'W' is missing. */
  const UpperChars: string := "ABCDEFGHIJKLMNOPQRSTUVXYZ"
  const LowerChars: string := "abcdefghijklmnopqrstuvwxyz"
  const SymbolChars: string := "-._"

  /** The nonce alphabet. */
  const Charset: string := DigitChars + UpperChars + LowerChars + SymbolChars

  /** The number of random bytes drawn per batch. */
  /** `charset.count`. */
  const CharsetCount: nat := 64

  const BatchSize: nat := 16

  lemma CharsetShape()
    ensures |Charset| == CharsetCount
    ensures 'W' !in Charset && 'w' in Charset && 'V' in Charset && 'X' in Charset
  {
    assert 'W' !in DigitChars && 'W' !in UpperChars && 'W' !in LowerChars && 'W' !in SymbolChars;
    assert 'w' in LowerChars && 'V' in UpperChars && 'X' in UpperChars;
  }

  /** `charset[Int(random)]`. */
  function Letter(b: byte): (c: char)
    requires (b as int) < CharsetCount
    ensures c in Charset
  {
    CharsetShape();
    Charset[b]
  }

  /** The bytes that index the alphabet, in the order drawn; the rest are discarded. */
  function Accepted(bytes: seq<byte>): (r: seq<byte>)
    ensures |r| <= |bytes|
    ensures forall i :: 0 <= i < |r| ==> (r[i] as int) < CharsetCount
  {
    if bytes == [] then []
    else Accepted(bytes[..|bytes| - 1]) + (if (bytes[|bytes| - 1] as int) < CharsetCount then [bytes[|bytes| - 1]] else [])
  }

  lemma {:induction false} AcceptedAppend(a: seq<byte>, b: seq<byte>)
    ensures Accepted(a + b) == Accepted(a) + Accepted(b)
    decreases |b|
  {
    if b == [] {
      assert a + b == a;
    } else {
      assert (a + b)[..|a + b| - 1] == a + b[..|b| - 1];
      AcceptedAppend(a, b[..|b| - 1]);
    }
  }

  lemma AcceptedSnoc(a: seq<byte>, x: byte)
    ensures Accepted(a + [x]) == Accepted(a) + (if (x as int) < CharsetCount then [x] else [])
  {
    assert (a + [x])[..|a + [x]| - 1] == a;
  }

  /** The characters the accepted bytes stand for. */
  function Encode(s: seq<byte>): (r: string)
    requires forall i :: 0 <= i < |s| ==> (s[i] as int) < CharsetCount
    ensures |r| == |s| && forall i :: 0 <= i < |r| ==> r[i] in Charset
  {
    seq(|s|, i requires 0 <= i < |s| => Letter(s[i]))
  }

  lemma EncodeSnoc(s: seq<byte>, x: byte)
    requires forall i :: 0 <= i < |s| ==> (s[i] as int) < CharsetCount
    requires (x as int) < CharsetCount
    ensures Encode(s + [x]) == Encode(s) + [Letter(x)]
  {
  }

  /**
   * The state of the nonce loop after reading `prefix` of the random
   * stream: `result` spells the usable bytes taken so far, and while
   * characters are still owed every usable byte read has been taken.
   */
  ghost predicate Progress(prefix: seq<byte>, length: int, remaining: int, result: string) {
    && 0 <= remaining <= length
    && |Accepted(prefix)| >= length - remaining
    && (remaining > 0 ==> |Accepted(prefix)| == length - remaining)
    && result == Encode(Accepted(prefix)[..length - remaining])
  }

  /** Reading one more byte: it is taken when characters are owed and it is usable, and skipped otherwise. */
  lemma ProgressStep(prefix: seq<byte>, x: byte, length: int, remaining: int, result: string)
    requires Progress(prefix, length, remaining, result)
    ensures remaining > 0 && (x as int) < CharsetCount ==> Progress(prefix + [x], length, remaining - 1, result + [Letter(x)])
    ensures remaining == 0 || (x as int) >= CharsetCount ==> Progress(prefix + [x], length, remaining, result)
  {
    var acc := Accepted(prefix);
    var consumed := length - remaining;
    AcceptedSnoc(prefix, x);
    if remaining == 0 {
      assert Accepted(prefix + [x])[..consumed] == acc[..consumed];
    } else if (x as int) < CharsetCount {
      assert acc[..consumed] == acc;
      assert Accepted(prefix + [x])[..consumed + 1] == acc + [x];
      EncodeSnoc(acc, x);
    }
  }

  lemma ExtendBySlice(prefix: seq<byte>, randoms: seq<byte>, j: nat)
    requires j < |randoms|
    ensures prefix + randoms[..j + 1] == (prefix + randoms[..j]) + [randoms[j]]
  {
    assert randoms[..j + 1] == randoms[..j] + [randoms[j]];
  }

  /**
   * The `randoms.forEach` closure: takes the usable bytes of one batch while
   * characters are still owed and skips the rest of the batch once none are.
   */
  method TakeBatch(ghost prefix: seq<byte>, randoms: seq<byte>, length: int, remaining: int, result: string)
    returns (remainingLength: int, taken: string)
    requires Progress(prefix, length, remaining, result)
    ensures Progress(prefix + randoms, length, remainingLength, taken)
  {
    remainingLength, taken := remaining, result;
    var j := 0;
    ghost var read := prefix;
    assert prefix + randoms[..0] == prefix;
    while j < |randoms|
      invariant 0 <= j <= |randoms|
      invariant read == prefix + randoms[..j]
      invariant Progress(read, length, remainingLength, taken)
    {
      var random := randoms[j];
      ProgressStep(read, random, length, remainingLength, taken);
      ExtendBySlice(prefix, randoms, j);
      read := read + [random];
      if remainingLength == 0 {
        j := j + 1;
        continue;
      }
      if (random as int) < CharsetCount {
        taken := taken + [Letter(random)];
        remainingLength := remainingLength - 1;
      }
      j := j + 1;
    }
    assert randoms[..j] == randoms;
  }

  /** The stream read so far and the rest of it. */
  lemma AcceptedSplit(bytes: seq<byte>, drawn: nat)
    requires drawn <= |bytes|
    ensures Accepted(bytes) == Accepted(bytes[..drawn]) + Accepted(bytes[drawn..])
  {
    var head, tail := bytes[..drawn], bytes[drawn..];
    assert head + tail == bytes;
    AcceptedAppend(head, tail);
  }

  /** A stream of whole batches that is not used up holds one more whole batch. */
  lemma NextBatchFits(drawn: nat, size: nat)
    requires drawn % BatchSize == 0 && size % BatchSize == 0 && drawn < size
    ensures drawn + BatchSize <= size
  {
    var q := drawn / BatchSize;
    var r := size / BatchSize;
    assert drawn == q * BatchSize && size == r * BatchSize;
    assert q < r;
  }

  /**
   * `randomNonceString(length:)`.  `bytes` is the stream the system random
   * source yields, drawn 16 at a time; it is long enough when it holds at
   * least `length` usable bytes and ends on a batch boundary.  The nonce is
   * the alphabet's image of the first `length` usable bytes.
   */
  method RandomNonceString(length: int, bytes: seq<byte>) returns (result: string)
    requires length > 0
    requires |bytes| % BatchSize == 0 && |Accepted(bytes)| >= length
    ensures |result| == length
    ensures forall i :: 0 <= i < |result| ==> result[i] in Charset
    ensures result == Encode(Accepted(bytes)[..length])
  {
    result := "";
    var remainingLength := length;
    var drawn := 0;
    assert bytes[..0] == [];
    while remainingLength > 0
      invariant 0 <= drawn <= |bytes| && drawn % BatchSize == 0
      invariant Progress(bytes[..drawn], length, remainingLength, result)
      decreases |bytes| - drawn
    {
      AcceptedSplit(bytes, drawn);
      assert |Accepted(bytes[drawn..])| > 0;
      NextBatchFits(drawn, |bytes|);
      var randoms := bytes[drawn..drawn + BatchSize];
      remainingLength, result := TakeBatch(bytes[..drawn], randoms, length, remainingLength, result);
      assert bytes[..drawn] + randoms == bytes[..drawn + BatchSize];
      drawn := drawn + BatchSize;
    }
    AcceptedSplit(bytes, drawn);
    assert Accepted(bytes)[..length] == Accepted(bytes[..drawn])[..length];
  }

  /**
   * The document `createUserIfNeeded` writes for a new Apple sign-in:
   * the credential's formatted name or "User", its e-mail or "", and a
   * last completed day of 1 January 2025.
   */
  function AppleDocument(uid: string, fullName: Option<string>, email: Option<string>, now: Time,
                         fcmToken: Option<string>, timezone: string): Document
  {
    map[
      "id" := Str(uid),
      "fullName" := Str(fullName.GetOr("User")),
      "email" := Str(email.GetOr("")),
      "streak" := Int(1),
      "phrases" := IntList([]),
      "rerolls" := Int(1),
      "rerollDate" := Timestamp(now),
      "lastSignIn" := Timestamp(January1st2025),
      "done" := Bool(false),
      "fcmToken" := Str(fcmToken.GetOr("")),
      "timezone" := Str(timezone)
    ]
  }

  /** The document `createUserIfNeededForPhone` writes: named "User", last completed day now. */
  function PhoneDocument(uid: string, now: Time, fcmToken: Option<string>, timezone: string): Document {
    map[
      "id" := Str(uid),
      "fullName" := Str("User"),
      "email" := Str(""),
      "streak" := Int(1),
      "phrases" := IntList([]),
      "rerolls" := Int(1),
      "rerollDate" := Timestamp(now),
      "lastSignIn" := Timestamp(now),
      "done" := Bool(false),
      "fcmToken" := Str(fcmToken.GetOr("")),
      "timezone" := Str(timezone)
    ]
  }

  /**
   * Both new-user documents start a streak of 1 with no completed phrases
   * and one reroll; neither holds `updatedPhraseDate`, so neither decodes as
   * a `User` until an `updateUser` call has written that field.
   */
  lemma NewDocumentsShape(uid: string, fullName: Option<string>, email: Option<string>, now: Time,
                          fcmToken: Option<string>, timezone: string)
    ensures var a := AppleDocument(uid, fullName, email, now, fcmToken, timezone);
      var p := PhoneDocument(uid, now, fcmToken, timezone);
      && a["streak"] == p["streak"] == Int(1)
      && a["phrases"] == p["phrases"] == IntList([])
      && a["rerolls"] == p["rerolls"] == Int(1)
      && a["done"] == p["done"] == Bool(false)
      && a["lastSignIn"] == Timestamp(January1st2025) && p["lastSignIn"] == Timestamp(now)
      && (fullName.None? ==> a["fullName"] == Str("User")) && p["fullName"] == Str("User")
      && Decode(uid, a).None? && Decode(uid, p).None?
  {
  }

  /** Once `updateUser` succeeds on a new user's document, it decodes to the record as written. */
  lemma NewDocumentReadableAfterUpdate(uid: string, now: Time, fcmToken: Option<string>, timezone: string, u: User)
    requires u.id == Some(uid)
    ensures var docs := map[uid := PhoneDocument(uid, now, fcmToken, timezone)];
      FetchUser(docs, uid).None?
      && FetchUser(ApplyUpdate(docs, u, None), uid) == Some(AsWritten(u, uid))
  {
    var docs := map[uid := PhoneDocument(uid, now, fcmToken, timezone)];
    UpdateThenFetch(docs, u, None);
  }

  class AuthViewModel {
    /** The signed-in Firebase user's uid. */
    var userSession: Option<string>
    var currentUser: Option<User>
    /** `UserDefaults.standard` key `authVerificationID`. */
    var storedVerificationID: Option<string>
    const store: UserStore

    constructor (userSession: Option<string>, storedVerificationID: Option<string>, store: UserStore)
      ensures this.userSession == userSession && this.storedVerificationID == storedVerificationID
      ensures this.store == store && currentUser == None
    {
      this.userSession := userSession;
      this.storedVerificationID := storedVerificationID;
      this.store := store;
      currentUser := None;
    }

    /** `signOut()`: drops the session; the cached record is kept. */
    method SignOut()
      modifies this`userSession
      ensures userSession == None
    {
      userSession := None;
    }

    /** `fetchUser()`: replaces the cached record only when the document decodes. */
    method FetchUser()
      modifies this`currentUser
      ensures userSession.Some? && UserService.FetchUser(store.docs, userSession.value).Some? ==>
        currentUser == UserService.FetchUser(store.docs, userSession.value)
      ensures userSession.None? || UserService.FetchUser(store.docs, userSession.value).None? ==>
        currentUser == old(currentUser)
    {
      if userSession.None? {
        return;
      }
      var uid := userSession.value;
      var user := UserService.FetchUser(store.docs, uid);
      if user.Some? {
        currentUser := user;
      }
    }

    /**
     * `createUserIfNeeded(user:appleCredential:completion:)`; `readFails`
     * says `getDocument` came back without a document.
     */
    method CreateUserIfNeeded(uid: string, fullName: Option<string>, email: Option<string>, now: Time,
                              fcmToken: Option<string>, timezone: string, readFails: bool)
      modifies store`docs
      ensures store.docs == CreateResult(old(store.docs), uid, AppleDocument(uid, fullName, email, now, fcmToken, timezone),
                                         readFails, store.failing)
    {
      store.CreateIfAbsent(uid, AppleDocument(uid, fullName, email, now, fcmToken, timezone), readFails);
    }

    /** `createUserIfNeededForPhone(user:completion:)`. */
    method CreateUserIfNeededForPhone(uid: string, now: Time, fcmToken: Option<string>, timezone: string, readFails: bool)
      modifies store`docs
      ensures store.docs == CreateResult(old(store.docs), uid, PhoneDocument(uid, now, fcmToken, timezone),
                                         readFails, store.failing)
    {
      store.CreateIfAbsent(uid, PhoneDocument(uid, now, fcmToken, timezone), readFails);
    }

    /**
     * `verifySMSCode(verificationCode:completion:)`; `signedIn` is the uid
     * Firebase Auth signs in with, `None` when it rejects the code, and
     * `readFails` says the existence check came back without a document.
     * The result is the value passed to the completion.  The follow-up
     * token and time-zone write is not modelled.
     */
    method VerifySMSCode(verificationCode: string, signedIn: Option<string>, now: Time,
                         fcmToken: Option<string>, timezone: string, readFails: bool) returns (ok: bool)
      modifies this`userSession, this`currentUser, store`docs
      ensures old(storedVerificationID).None? ==>
        !ok && userSession == old(userSession) && currentUser == old(currentUser) && store.docs == old(store.docs)
      ensures old(storedVerificationID).Some? && signedIn.None? ==>
        !ok && userSession == old(userSession) && currentUser == old(currentUser) && store.docs == old(store.docs)
      ensures old(storedVerificationID).Some? && signedIn.Some? ==>
        var uid := signedIn.value;
        && ok && userSession == signedIn
        && store.docs == CreateResult(old(store.docs), uid, PhoneDocument(uid, now, fcmToken, timezone),
                                      readFails, store.failing)
        && (uid !in old(store.docs) ==> currentUser == old(currentUser))
        && (readFails && store.failing.None? ==> currentUser == old(currentUser))
        && (!readFails && uid in old(store.docs) && UserService.FetchUser(old(store.docs), uid).Some? ==>
              currentUser == UserService.FetchUser(old(store.docs), uid))
        && (!readFails && uid in old(store.docs) && UserService.FetchUser(old(store.docs), uid).None? ==>
              currentUser == old(currentUser))
        && (readFails && store.failing.Some? ==>
              currentUser == (if UserService.FetchUser(old(store.docs), uid).Some?
                              then UserService.FetchUser(old(store.docs), uid) else old(currentUser)))
    {
      if storedVerificationID.None? {
        return false;
      }
      if signedIn.None? {
        return false;
      }
      var uid := signedIn.value;
      userSession := Some(uid);
      CreateUserIfNeededForPhone(uid, now, fcmToken, timezone, readFails);
      NewDocumentsShape(uid, None, None, now, fcmToken, timezone);
      FetchUser();
      ok := true;
    }
  }
}
