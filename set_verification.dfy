/** `POST /api/admin/set-verification`: the administrator marks a user as
    verified or not by merge-writing one boolean field of the user's
    document. */
module SetVerificationRoute {
  import opened Wrappers
  import opened JsString
  import opened Store
  import opened FirebaseAdmin
  import opened Http

  /** The request body's fields; `verified` keeps its JSON value because only
      the boolean `true` counts. */
  datatype Body = Body(uid: Option<string>, verified: Value)

  /** What an unparsable body is replaced with (`{}`). */
  const EmptyBody: Body := Body(None, Null)

  /** The parsed request body: not JSON (replaced with `{}`), the JSON
      `null`, or an object with these fields. */
  datatype Payload = NotJson | JsonNull | Object(fields: Body)

  /** The fields `const { uid, verified } = body` reads; None for `null`,
      where the destructuring throws. */
  function Fields(body: Payload): Option<Body> {
    match body
    case NotJson => Some(EmptyBody)
    case JsonNull => None
    case Object(b) => Some(b)
  }

  datatype Outcome = Outcome(response: Response, write: Option<Write>)

  /** The handler's decision: its response and the write it performs. */
  function Decide(authHeader: Option<string>, verify: Verifier, body: Payload): (o: Outcome)
    ensures o.write.Some? <==> o.response.status == 200
    ensures CheckAdmin(authHeader, verify).MissingToken? ==> o == Outcome(Error(401, "Missing token"), None)
    ensures CheckAdmin(authHeader, verify).Forbidden? ==> o == Outcome(Error(403, "Forbidden"), None)
    ensures CheckAdmin(authHeader, verify).VerifyThrew? ==> o == Outcome(Error(500, "Failed to set verification status"), None)
    ensures CheckAdmin(authHeader, verify).Admitted? && body.JsonNull? ==> o == Outcome(Error(500, "Failed to set verification status"), None)
    ensures o.response.status == 400 <==>
      CheckAdmin(authHeader, verify).Admitted? && Fields(body).Some? && !Present(Fields(body).value.uid)
    ensures o.write.Some? <==>
      CheckAdmin(authHeader, verify).Admitted? && Fields(body).Some? && Present(Fields(body).value.uid)
    ensures o.write.Some? ==>
      o.write.value == MergeDoc(Fields(body).value.uid.value, map["verified" := Bool(Fields(body).value.verified == Bool(true))])
  {
    match CheckAdmin(authHeader, verify)
    case MissingToken => Outcome(Error(401, "Missing token"), None)
    case VerifyThrew => Outcome(Error(500, "Failed to set verification status"), None)
    case Forbidden => Outcome(Error(403, "Forbidden"), None)
    case Admitted(_) =>
      if body.JsonNull? then Outcome(Error(500, "Failed to set verification status"), None)
      else
        var b := Fields(body).value;
        if !Present(b.uid) then Outcome(Error(400, "uid is required"), None)
        else Outcome(Ok(), Some(MergeDoc(b.uid.value, map["verified" := Bool(b.verified == Bool(true))])))
  }

  /** `POST(request)` against the store. */
  method Post(db: Firestore, authHeader: Option<string>, verify: Verifier, body: Payload) returns (response: Response)
    modifies db
    ensures response == Decide(authHeader, verify, body).response
    ensures db.users == Apply(old(db.users), Decide(authHeader, verify, body).write)
    ensures db.connections == old(db.connections)
  {
    var o := Decide(authHeader, verify, body);
    db.ApplyToUsers(o.write);
    response := o.response;
  }

  /** A successful call stores `verified` as true exactly when the body said
      `true`, and changes no other field and no other document. */
  lemma OnlyVerifiedChanges(users: map<string, Doc>, authHeader: Option<string>, verify: Verifier, body: Payload)
    requires Decide(authHeader, verify, body).response.status == 200
    ensures Fields(body).Some?
    ensures var uid := Fields(body).value.uid.value;
      var after := Apply(users, Decide(authHeader, verify, body).write);
      uid in after && after[uid]["verified"] == Bool(Fields(body).value.verified == Bool(true)) &&
      (forall k :: k in users && k != uid ==> after[k] == users[k]) &&
      (uid in users ==> forall f :: f in users[uid] && f != "verified" ==> f in after[uid] && after[uid][f] == users[uid][f])
  {
  }

  /** Only the boolean `true` verifies: a string "true" or the number 1 stores
      false. */
  lemma OnlyBooleanTrueVerifies(users: map<string, Doc>, authHeader: Option<string>, verify: Verifier, uid: string, v: Value)
    requires CheckAdmin(authHeader, verify).Admitted? && uid != ""
    ensures var after := Apply(users, Decide(authHeader, verify, Object(Body(Some(uid), v))).write);
      uid in after && (after[uid]["verified"] == Bool(true) <==> v == Bool(true))
  {
  }

  /** Sending the same request twice leaves the store as sending it once. */
  lemma Idempotent(users: map<string, Doc>, authHeader: Option<string>, verify: Verifier, body: Payload)
    ensures var w := Decide(authHeader, verify, body).write;
      Apply(Apply(users, w), w) == Apply(users, w)
  {
    var w := Decide(authHeader, verify, body).write;
    if w.Some? {
      MergeIdempotent(users, w.value.id, w.value.patch);
    }
  }
}
