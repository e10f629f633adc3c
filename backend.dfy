/**
 * The hourly `sendSilentPush` job: for each user document, in order, skip
 * users without a token or time zone, skip users for whom it is not the
 * midnight hour, and otherwise send one background push that makes the app
 * run its daily update.  The messaging service's verdict is a parameter;
 * a failed send is caught and the loop goes on.  Working out the local hour
 * is a parameter too: `None` stands for the `RangeError` an unknown time
 * zone raises, which is not inside the `try`, so it ends the whole run.
 */
module Backend {
  import opened Wrappers
  import YesApp

  /** The fields the job reads from a user document. */
  datatype UserDoc = UserDoc(id: string, fcmToken: Option<string>, timezone: Option<string>)

  datatype Message = Message(
    token: string,
    data: map<string, string>,
    apnsHeaders: map<string, string>,
    contentAvailable: int)

  /** One call to `admin.messaging().send`: `delivered` is false when it threw and was caught. */
  datatype Attempt = Attempt(userId: string, message: Message, delivered: bool)

  /** JavaScript truthiness of a string field: present and non-empty. */
  predicate Truthy(v: Option<string>) {
    v.Some? && v.value != ""
  }

  /** The message built for `token`. */
  function SilentPush(token: string): (m: Message)
    ensures m.token == token
  {
    Message(token, map["dailyRefresh" := "true"],
            map["apns-push-type" := "background", "apns-priority" := "5"], 1)
  }

  /** A user is sent a push when both fields are set and it is hour 0 in the user's zone. */
  predicate Eligible(d: UserDoc, localHour: string -> Option<int>) {
    Truthy(d.fcmToken) && Truthy(d.timezone) && localHour(d.timezone.value) == Some(0)
  }

  /** A user whose fields are set but whose time zone cannot be read ends the run. */
  predicate Aborts(d: UserDoc, localHour: string -> Option<int>) {
    Truthy(d.fcmToken) && Truthy(d.timezone) && localHour(d.timezone.value).None?
  }

  /** The attempts made for one document. */
  function Step(d: UserDoc, localHour: string -> Option<int>, delivers: string -> bool): seq<Attempt> {
    if Eligible(d, localHour) then
      [Attempt(d.id, SilentPush(d.fcmToken.value), delivers(d.id))]
    else []
  }

  /**
   * The attempts of a run over `docs` and whether the run got to the end;
   * it stops at the first document that aborts.
   */
  function Scan(docs: seq<UserDoc>, localHour: string -> Option<int>, delivers: string -> bool): (seq<Attempt>, bool)
  {
    if docs == [] then ([], true)
    else if Aborts(docs[0], localHour) then ([], false)
    else
      var rest := Scan(docs[1..], localHour, delivers);
      (Step(docs[0], localHour, delivers) + rest.0, rest.1)
  }

  /** `sendSilentPush`: `attempts` are the sends in order and `completed` is false when the run threw. */
  method SendSilentPush(docs: seq<UserDoc>, localHour: string -> Option<int>, delivers: string -> bool)
    returns (attempts: seq<Attempt>, completed: bool)
    ensures (attempts, completed) == Scan(docs, localHour, delivers)
  {
    ghost var total := Scan(docs, localHour, delivers);
    attempts := [];
    var i := 0;
    assert docs[0..] == docs;
    assert attempts + total.0 == total.0;
    while i < |docs|
      invariant 0 <= i <= |docs|
      invariant total.0 == attempts + Scan(docs[i..], localHour, delivers).0
      invariant total.1 == Scan(docs[i..], localHour, delivers).1
    {
      ScanFrom(docs, i, localHour, delivers);
      var sent, aborted := VisitUser(docs[i], localHour, delivers);
      if aborted {
        assert attempts + [] == attempts;
        completed := false;
        return;
      }
      ghost var later := Scan(docs[i + 1..], localHour, delivers).0;
      assert attempts + (sent + later) == (attempts + sent) + later;
      attempts := attempts + sent;
      i := i + 1;
    }
    assert attempts + [] == attempts;
    completed := true;
  }

  /** The body of the loop for one document: the sends it makes, and whether it threw out of the run. */
  method VisitUser(userDoc: UserDoc, localHour: string -> Option<int>, delivers: string -> bool)
    returns (sent: seq<Attempt>, aborted: bool)
    ensures aborted == Aborts(userDoc, localHour)
    ensures !aborted ==> sent == Step(userDoc, localHour, delivers)
  {
    sent := [];
    aborted := false;
    var token := userDoc.fcmToken;
    var timezone := userDoc.timezone;
    if !Truthy(token) || !Truthy(timezone) {
      return;
    }
    var hours := localHour(timezone.value);
    if hours.None? {
      aborted := true;
      return;
    }
    if hours.value != 0 {
      return;
    }
    var message := SilentPush(token.value);
    var ok := delivers(userDoc.id);
    sent := [Attempt(userDoc.id, message, ok)];
  }

  /** One step of `Scan` over a suffix of the documents. */
  lemma ScanFrom(docs: seq<UserDoc>, i: nat, localHour: string -> Option<int>, delivers: string -> bool)
    requires i < |docs|
    ensures Aborts(docs[i], localHour) ==> Scan(docs[i..], localHour, delivers) == ([], false)
    ensures !Aborts(docs[i], localHour) ==>
      && Scan(docs[i..], localHour, delivers).0 == Step(docs[i], localHour, delivers) + Scan(docs[i + 1..], localHour, delivers).0
      && Scan(docs[i..], localHour, delivers).1 == Scan(docs[i + 1..], localHour, delivers).1
  {
    assert docs[i..][1..] == docs[i + 1..];
  }

  /** The ids, in order, of the eligible documents. */
  function Targets(docs: seq<UserDoc>, localHour: string -> Option<int>): seq<string> {
    if docs == [] then []
    else (if Eligible(docs[0], localHour) then [docs[0].id] else []) + Targets(docs[1..], localHour)
  }

  function AttemptIds(attempts: seq<Attempt>): seq<string> {
    if attempts == [] then [] else [attempts[0].userId] + AttemptIds(attempts[1..])
  }

  lemma {:induction false} AttemptIdsAppend(a: seq<Attempt>, b: seq<Attempt>)
    ensures AttemptIds(a + b) == AttemptIds(a) + AttemptIds(b)
  {
    if a == [] {
      assert a + b == b;
    } else {
      assert (a + b)[1..] == a[1..] + b;
      AttemptIdsAppend(a[1..], b);
    }
  }

  /**
   * In a run that completes, exactly the eligible users are sent a push, in
   * document order, whatever the messaging service does with earlier sends;
   * and a run completes exactly when no document aborts it.
   */
  lemma {:induction false} ScanTargets(docs: seq<UserDoc>, localHour: string -> Option<int>, delivers: string -> bool)
    ensures Scan(docs, localHour, delivers).1 <==> forall k :: 0 <= k < |docs| ==> !Aborts(docs[k], localHour)
    ensures Scan(docs, localHour, delivers).1 ==> AttemptIds(Scan(docs, localHour, delivers).0) == Targets(docs, localHour)
  {
    if docs != [] && !Aborts(docs[0], localHour) {
      ScanTargets(docs[1..], localHour, delivers);
      var rest := Scan(docs[1..], localHour, delivers).0;
      AttemptIdsAppend(Step(docs[0], localHour, delivers), rest);
      if Scan(docs, localHour, delivers).1 {
        assert forall k :: 1 <= k < |docs| ==> docs[k] == docs[1..][k - 1];
      } else {
        var k :| 0 <= k < |docs[1..]| && Aborts(docs[1..][k], localHour);
        assert docs[k + 1] == docs[1..][k];
      }
    }
  }

  /** Which users are sent a push does not depend on whether earlier sends were delivered. */
  lemma {:induction false} FailuresDoNotChangeTargets(docs: seq<UserDoc>, localHour: string -> Option<int>, d1: string -> bool, d2: string -> bool)
    ensures Scan(docs, localHour, d1).1 == Scan(docs, localHour, d2).1
    ensures AttemptIds(Scan(docs, localHour, d1).0) == AttemptIds(Scan(docs, localHour, d2).0)
  {
    if docs != [] && !Aborts(docs[0], localHour) {
      FailuresDoNotChangeTargets(docs[1..], localHour, d1, d2);
      AttemptIdsAppend(Step(docs[0], localHour, d1), Scan(docs[1..], localHour, d1).0);
      AttemptIdsAppend(Step(docs[0], localHour, d2), Scan(docs[1..], localHour, d2).0);
    }
  }

  /** Every attempt is for a document of the run, each document yields at most one, and every message is the silent push for that user's token. */
  lemma {:induction false} AtMostOneAttemptPerDocument(docs: seq<UserDoc>, localHour: string -> Option<int>, delivers: string -> bool)
    ensures |Scan(docs, localHour, delivers).0| <= |docs|
    ensures forall a :: a in Scan(docs, localHour, delivers).0 ==>
      exists d :: d in docs && Eligible(d, localHour) && a.userId == d.id && a.message == SilentPush(d.fcmToken.value)
  {
    if docs != [] && !Aborts(docs[0], localHour) {
      AtMostOneAttemptPerDocument(docs[1..], localHour, delivers);
      forall a | a in Scan(docs, localHour, delivers).0
        ensures exists d :: d in docs && Eligible(d, localHour) && a.userId == d.id && a.message == SilentPush(d.fcmToken.value)
      {
        if a in Step(docs[0], localHour, delivers) {
          assert docs[0] in docs;
        } else {
          var d :| d in docs[1..] && Eligible(d, localHour) && a.userId == d.id && a.message == SilentPush(d.fcmToken.value);
          assert d in docs;
        }
      }
    }
  }

  /** Distinct document ids (Firestore ids are unique) give each user at most one push per run. */
  lemma {:induction false} OneSendPerUser(docs: seq<UserDoc>, localHour: string -> Option<int>)
    requires forall i, j :: 0 <= i < j < |docs| ==> docs[i].id != docs[j].id
    ensures forall i, j :: 0 <= i < j < |Targets(docs, localHour)| ==> Targets(docs, localHour)[i] != Targets(docs, localHour)[j]
    ensures forall id :: id in Targets(docs, localHour) ==> exists k :: 0 <= k < |docs| && docs[k].id == id
  {
    if docs != [] {
      OneSendPerUser(docs[1..], localHour);
      var rest := Targets(docs[1..], localHour);
      forall id | id in rest
        ensures id != docs[0].id
      {
        var k :| 0 <= k < |docs[1..]| && docs[1..][k].id == id;
        assert docs[k + 1].id == id;
      }
      var t := Targets(docs, localHour);
      if Eligible(docs[0], localHour) {
        assert t == [docs[0].id] + rest;
        forall i, j | 0 <= i < j < |t|
          ensures t[i] != t[j]
        {
          assert t[j] == rest[j - 1] && t[j] in rest;
          if i > 0 {
            assert t[i] == rest[i - 1];
            assert 0 <= i - 1 < j - 1 < |rest|;
          } else {
            assert t[i] == docs[0].id;
          }
        }
      } else {
        assert t == rest;
      }
      forall id | id in Targets(docs, localHour)
        ensures exists k :: 0 <= k < |docs| && docs[k].id == id
      {
        if id != docs[0].id {
          assert id in rest;
          var k :| 0 <= k < |docs[1..]| && docs[1..][k].id == id;
          assert docs[k + 1].id == id;
        }
      }
    }
  }

  /** The message is a background push at priority 5 with content-available set. */
  lemma SilentPushShape(token: string)
    ensures var m := SilentPush(token);
      && m.data.Keys == {"dailyRefresh"} && m.data["dailyRefresh"] == "true"
      && m.apnsHeaders["apns-push-type"] == "background"
      && m.apnsHeaders["apns-priority"] == "5"
      && m.apnsHeaders.Keys == {"apns-push-type", "apns-priority"}
      && m.contentAvailable == 1
  {
  }

  /** The message's data arrives as string values in `userInfo`, and the app recognises it as the daily refresh. */
  function UserInfo(m: Message): map<string, YesApp.PushValue> {
    map k | k in m.data :: YesApp.StringValue(m.data[k])
  }

  lemma MessageRecognizedByClient(token: string)
    ensures YesApp.IsDailyRefresh(UserInfo(SilentPush(token)))
  {
    assert YesApp.DailyRefreshKey in SilentPush(token).data;
  }

  /** A user without a token or time zone is never sent a push, and neither is one outside the midnight hour. */
  lemma SkippedUsers(d: UserDoc, localHour: string -> Option<int>, delivers: string -> bool)
    ensures !Truthy(d.fcmToken) || !Truthy(d.timezone) ==> Scan([d], localHour, delivers) == ([], true)
    ensures Truthy(d.fcmToken) && Truthy(d.timezone) && localHour(d.timezone.value).Some? && localHour(d.timezone.value) != Some(0) ==>
      Scan([d], localHour, delivers) == ([], true)
    ensures Eligible(d, localHour) ==> Scan([d], localHour, delivers) == ([Attempt(d.id, SilentPush(d.fcmToken.value), delivers(d.id))], true)
  {
    assert [d][1..] == [];
    assert Scan([d][1..], localHour, delivers) == ([], true);
    assert !Aborts(d, localHour) ==> Scan([d], localHour, delivers) == (Step(d, localHour, delivers) + [], true);
    assert Step(d, localHour, delivers) + [] == Step(d, localHour, delivers);
  }

  /** An unknown time zone ends the run: a later eligible user is not sent anything. */
  lemma UnknownZoneStopsRun(bad: UserDoc, good: UserDoc, localHour: string -> Option<int>, delivers: string -> bool)
    requires Aborts(bad, localHour) && Eligible(good, localHour)
    ensures Scan([bad, good], localHour, delivers) == ([], false)
    ensures Scan([good, bad], localHour, delivers) == ([Attempt(good.id, SilentPush(good.fcmToken.value), delivers(good.id))], false)
  {
    assert [good, bad][1..] == [bad];
    assert Scan([bad], localHour, delivers) == ([], false);
    assert Step(good, localHour, delivers) + [] == Step(good, localHour, delivers);
  }
}
