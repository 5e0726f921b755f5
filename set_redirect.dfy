/** `POST /api/admin/set-redirect`: the administrator sets the page a user is
    sent to after sign-in, naming the user by uid or, failing that, by email
    address. */
module SetRedirectRoute {
  import opened Wrappers
  import opened JsString
  import opened Store
  import opened FirebaseAdmin
  import opened Http

  /** The request body's fields; `redirectUrl` is stored as sent. */
  datatype Body = Body(uid: Option<string>, email: Option<string>, redirectUrl: Value)

  /** What an unparsable or null body is replaced with (`{}`). */
  const EmptyBody: Body := Body(None, None, Null)

  /** `getUserByEmail(email)`: the uid of the account with that address, or
      None when the lookup throws. */
  type UserLookup = string -> Option<string>

  datatype Outcome = Outcome(response: Response, write: Option<Write>)

  /** The handler's decision: its response and the write it performs. */
  function Decide(authHeader: Option<string>, verify: Verifier, body: Option<Body>, getUserByEmail: UserLookup): (o: Outcome)
    ensures o.write.Some? <==> o.response.status == 200
    ensures CheckAdmin(authHeader, verify).MissingToken? ==> o == Outcome(Error(401, "Missing token"), None)
    ensures CheckAdmin(authHeader, verify).Forbidden? ==> o == Outcome(Error(403, "Forbidden"), None)
    ensures CheckAdmin(authHeader, verify).VerifyThrew? ==> o == Outcome(Error(500, "Failed to set redirect"), None)
    ensures CheckAdmin(authHeader, verify).Admitted? && !Truthy(body.GetOr(EmptyBody).redirectUrl) ==>
      o == Outcome(Error(400, "Missing redirectUrl"), None)
    ensures o.response.status == 404 <==>
      (CheckAdmin(authHeader, verify).Admitted? && Truthy(body.GetOr(EmptyBody).redirectUrl) &&
       !Present(body.GetOr(EmptyBody).uid) && Present(body.GetOr(EmptyBody).email) &&
       getUserByEmail(body.GetOr(EmptyBody).email.value).None?)
    ensures o == Outcome(Error(400, "Provide uid or email"), None) <==>
      (CheckAdmin(authHeader, verify).Admitted? && Truthy(body.GetOr(EmptyBody).redirectUrl) &&
       !Present(body.GetOr(EmptyBody).uid) && !Present(body.GetOr(EmptyBody).email))
    ensures o.write.Some? <==>
      (CheckAdmin(authHeader, verify).Admitted? && Truthy(body.GetOr(EmptyBody).redirectUrl) &&
       (Present(body.GetOr(EmptyBody).uid) ||
        (Present(body.GetOr(EmptyBody).email) && getUserByEmail(body.GetOr(EmptyBody).email.value).Some?)))
    ensures o.write.Some? ==> (CheckAdmin(authHeader, verify).Admitted? &&
      o.write.value.MergeDoc? && o.write.value.patch == map["redirectUrl" := body.value.redirectUrl])
  {
    match CheckAdmin(authHeader, verify)
    case MissingToken => Outcome(Error(401, "Missing token"), None)
    case VerifyThrew => Outcome(Error(500, "Failed to set redirect"), None)
    case Forbidden => Outcome(Error(403, "Forbidden"), None)
    case Admitted(_) =>
      var b := body.GetOr(EmptyBody);
      if !Truthy(b.redirectUrl) then Outcome(Error(400, "Missing redirectUrl"), None)
      else if !Present(b.uid) && !Present(b.email) then Outcome(Error(400, "Provide uid or email"), None)
      else
        var target := if Present(b.uid) then Some(b.uid.value) else getUserByEmail(b.email.value);
        if target.None? then Outcome(Error(404, "User not found"), None)
        else Outcome(Ok(), Some(MergeDoc(target.value, map["redirectUrl" := b.redirectUrl])))
  }

  /** `POST(request)` against the store. */
  method Post(db: Firestore, authHeader: Option<string>, verify: Verifier, body: Option<Body>, getUserByEmail: UserLookup)
    returns (response: Response)
    modifies db
    ensures response == Decide(authHeader, verify, body, getUserByEmail).response
    ensures db.users == Apply(old(db.users), Decide(authHeader, verify, body, getUserByEmail).write)
    ensures db.connections == old(db.connections)
  {
    var o := Decide(authHeader, verify, body, getUserByEmail);
    db.ApplyToUsers(o.write);
    response := o.response;
  }

  /** A uid in the body wins: the email lookup is not consulted and the uid's
      document is the one written. */
  lemma UidTakesPrecedence(authHeader: Option<string>, verify: Verifier, body: Body, lookup1: UserLookup, lookup2: UserLookup)
    requires Present(body.uid)
    ensures Decide(authHeader, verify, Some(body), lookup1) == Decide(authHeader, verify, Some(body), lookup2)
    ensures Decide(authHeader, verify, Some(body), lookup1).write.Some? ==>
      Decide(authHeader, verify, Some(body), lookup1).write.value.id == body.uid.value
  {
  }

  /** Without a uid, the document written is the one of the account the
      email lookup names. */
  lemma EmailResolvesTarget(authHeader: Option<string>, verify: Verifier, body: Body, lookup: UserLookup)
    requires !Present(body.uid) && Decide(authHeader, verify, Some(body), lookup).write.Some?
    ensures Present(body.email) && lookup(body.email.value).Some?
    ensures Decide(authHeader, verify, Some(body), lookup).write.value.id == lookup(body.email.value).value
  {
  }

  /** A successful call changes only `redirectUrl` of the target document. */
  lemma OnlyRedirectChanges(users: map<string, Doc>, authHeader: Option<string>, verify: Verifier, body: Option<Body>, lookup: UserLookup)
    requires Decide(authHeader, verify, body, lookup).write.Some?
    ensures var id := Decide(authHeader, verify, body, lookup).write.value.id;
      var after := Apply(users, Decide(authHeader, verify, body, lookup).write);
      id in after && after[id]["redirectUrl"] == body.value.redirectUrl &&
      (forall k :: k in users && k != id ==> after[k] == users[k]) &&
      (id in users ==> forall f :: f in users[id] && f != "redirectUrl" ==> f in after[id] && after[id][f] == users[id][f])
  {
  }
}
