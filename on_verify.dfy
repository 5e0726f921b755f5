/** `POST /api/auth/on-verify`: after a user signs in with a verified email
    address, the backend checks the address against the college's allowlist
    and creates or refreshes the user's profile document. */
module OnVerifyRoute {
  import opened Wrappers
  import opened JsString
  import opened Store
  import opened FirebaseAdmin
  import opened Http
  import CollegeEmailDomains

  datatype Body = Body(collegeSlug: Option<string>)

  /** What an unparsable body is replaced with (`{}`). */
  const EmptyBody: Body := Body(None)

  datatype Outcome = Outcome(response: Response, write: Option<Write>)

  /** `body?.collegeSlug || null`. */
  function RequestSlug(body: Option<Body>): (slug: Option<string>)
    ensures slug.None? <==> !Present(body.GetOr(EmptyBody).collegeSlug)
    ensures slug.Some? ==> slug == body.value.collegeSlug && slug.value != ""
  {
    OrNull(body.GetOr(EmptyBody).collegeSlug)
  }

  /** The document created for a first sign-in. */
  function NewProfile(email: string, collegeSlug: Option<string>): Doc {
    map["email" := Str(email), "collegeSlug" := Str(collegeSlug.GetOr("")),
        "isEmailVerified" := Bool(true), "hasPassword" := Bool(false),
        "createdAt" := ServerTimestamp, "lastLogin" := ServerTimestamp]
  }

  /** The fields refreshed on a later sign-in; the slug only when given. */
  function RefreshPatch(email: string, collegeSlug: Option<string>): Doc {
    map["email" := Str(email)] +
    (if Present(collegeSlug) then map["collegeSlug" := Str(collegeSlug.value)] else map[]) +
    map["isEmailVerified" := Bool(true), "lastLogin" := ServerTimestamp]
  }

  /** The handler's decision, given the `users` collection it reads. */
  function Decide(authHeader: Option<string>, verify: Verifier, body: Option<Body>, users: map<string, Doc>): (o: Outcome)
    ensures o.write.Some? <==> o.response.status == 200
    ensures !Present(ExtractToken(authHeader)) ==> o == Outcome(Error(401, "Missing authorization token"), None)
    ensures o.response.status == 400 && o.response.error == Some("Invalid token payload") <==>
      Present(ExtractToken(authHeader)) && verify(ExtractToken(authHeader).value).Success? &&
      (!Present(verify(ExtractToken(authHeader).value).value.uid) || !Present(verify(ExtractToken(authHeader).value).value.email))
    ensures Present(ExtractToken(authHeader)) && verify(ExtractToken(authHeader).value).Failure? ==>
      o == Outcome(Error(500, verify(ExtractToken(authHeader).value).error), None)
    ensures Present(ExtractToken(authHeader)) && verify(ExtractToken(authHeader).value).Success? ==>
      var claims := verify(ExtractToken(authHeader).value).value;
      var validation := CollegeEmailDomains.Validate(claims.email, RequestSlug(body));
      Present(claims.uid) && Present(claims.email) && !validation.isValid ==>
        o == Outcome(Error(400, validation.error.GetOr("Email domain mismatch")), None)
    ensures o.write.Some? <==>
      Present(ExtractToken(authHeader)) && verify(ExtractToken(authHeader).value).Success? &&
      var claims := verify(ExtractToken(authHeader).value).value;
      Present(claims.uid) && Present(claims.email) && CollegeEmailDomains.Validate(claims.email, RequestSlug(body)).isValid
    ensures o.write.Some? ==>
      var claims := verify(ExtractToken(authHeader).value).value;
      o.write.value.id == claims.uid.value &&
      (claims.uid.value !in users ==> o.write.value == SetDoc(claims.uid.value, NewProfile(claims.email.value, RequestSlug(body)))) &&
      (claims.uid.value in users ==> o.write.value == MergeDoc(claims.uid.value, RefreshPatch(claims.email.value, RequestSlug(body))))
  {
    var token := ExtractToken(authHeader);
    if !Present(token) then Outcome(Error(401, "Missing authorization token"), None)
    else
      var decoded := verify(token.value);
      if decoded.Failure? then Outcome(Error(500, decoded.error), None)
      else
        var uid := decoded.value.uid;
        var email := decoded.value.email;
        if !Present(uid) || !Present(email) then Outcome(Error(400, "Invalid token payload"), None)
        else
          var collegeSlug := RequestSlug(body);
          var validation := CollegeEmailDomains.Validate(email, collegeSlug);
          if !validation.isValid then Outcome(Error(400, validation.error.GetOr("Email domain mismatch")), None)
          else if uid.value !in users then
            Outcome(Ok(), Some(SetDoc(uid.value, NewProfile(email.value, collegeSlug))))
          else
            Outcome(Ok(), Some(MergeDoc(uid.value, RefreshPatch(email.value, collegeSlug))))
  }

  /** `POST(request)` against the store. */
  method Post(db: Firestore, authHeader: Option<string>, verify: Verifier, body: Option<Body>) returns (response: Response)
    modifies db
    ensures response == Decide(authHeader, verify, body, old(db.users)).response
    ensures db.users == Apply(old(db.users), Decide(authHeader, verify, body, old(db.users)).write)
    ensures db.connections == old(db.connections)
  {
    var o := Decide(authHeader, verify, body, db.users);
    db.ApplyToUsers(o.write);
    response := o.response;
  }

  /** Without a college slug in the body the request is refused with 400 and
      nothing is written. */
  lemma MissingSlugRefused(authHeader: Option<string>, verify: Verifier, body: Option<Body>, users: map<string, Doc>)
    requires RequestSlug(body).None?
    requires Present(ExtractToken(authHeader)) && verify(ExtractToken(authHeader).value).Success?
    ensures Decide(authHeader, verify, body, users).response.status == 400
    ensures Decide(authHeader, verify, body, users).write.None?
  {
  }

  /** After a successful call the user's document holds the request's slug,
      the address from the token, and `isEmailVerified` true. */
  lemma SuccessfulUpsert(authHeader: Option<string>, verify: Verifier, body: Option<Body>, users: map<string, Doc>)
    requires Decide(authHeader, verify, body, users).write.Some?
    ensures var claims := verify(ExtractToken(authHeader).value).value;
      var after := Apply(users, Decide(authHeader, verify, body, users).write);
      RequestSlug(body).Some? && claims.uid.value in after &&
      after[claims.uid.value]["collegeSlug"] == Str(RequestSlug(body).value) &&
      after[claims.uid.value]["email"] == Str(claims.email.value) &&
      after[claims.uid.value]["isEmailVerified"] == Bool(true)
  {
    var claims := verify(ExtractToken(authHeader).value).value;
    var slug := RequestSlug(body);
    assert CollegeEmailDomains.Validate(claims.email, slug).isValid;
    UpsertFields(users, claims.uid.value, claims.email.value, slug.value, Decide(authHeader, verify, body, users).write.value);
  }

  /** Both the created document and the refreshed one carry the slug, the
      address and `isEmailVerified` true. */
  lemma UpsertFields(users: map<string, Doc>, uid: string, email: string, slug: string, w: Write)
    requires slug != ""
    requires w == SetDoc(uid, NewProfile(email, Some(slug))) || w == MergeDoc(uid, RefreshPatch(email, Some(slug)))
    ensures var after := Apply(users, Some(w));
      uid in after && after[uid]["collegeSlug"] == Str(slug) &&
      after[uid]["email"] == Str(email) && after[uid]["isEmailVerified"] == Bool(true)
  {
    if w.SetDoc? {
      var doc := NewProfile(email, Some(slug));
      assert doc["collegeSlug"] == Str(slug) && doc["email"] == Str(email) && doc["isEmailVerified"] == Bool(true);
    } else {
      var patch := RefreshPatch(email, Some(slug));
      assert patch["collegeSlug"] == Str(slug) && patch["email"] == Str(email) && patch["isEmailVerified"] == Bool(true);
    }
  }

  /** A first sign-in creates the document with `hasPassword` false. */
  lemma FirstSignInCreates(authHeader: Option<string>, verify: Verifier, body: Option<Body>, users: map<string, Doc>)
    requires Decide(authHeader, verify, body, users).write.Some?
    requires verify(ExtractToken(authHeader).value).value.uid.value !in users
    ensures var uid := verify(ExtractToken(authHeader).value).value.uid.value;
      var after := Apply(users, Decide(authHeader, verify, body, users).write);
      uid in after && after[uid]["hasPassword"] == Bool(false) && after[uid]["isEmailVerified"] == Bool(true)
  {
  }

  /** A later sign-in keeps every field it does not refresh. */
  lemma LaterSignInPreserves(authHeader: Option<string>, verify: Verifier, body: Option<Body>, users: map<string, Doc>, f: string)
    requires Decide(authHeader, verify, body, users).write.Some?
    requires var uid := verify(ExtractToken(authHeader).value).value.uid.value;
      uid in users && f in users[uid] && f != "email" && f != "collegeSlug" && f != "isEmailVerified" && f != "lastLogin"
    ensures var uid := verify(ExtractToken(authHeader).value).value.uid.value;
      var after := Apply(users, Decide(authHeader, verify, body, users).write);
      uid in after && f in after[uid] && after[uid][f] == users[uid][f]
  {
    var claims := verify(ExtractToken(authHeader).value).value;
    var patch := RefreshPatch(claims.email.value, RequestSlug(body));
    assert f !in patch;
  }

  /** A refused request writes nothing. */
  lemma RefusalWritesNothing(authHeader: Option<string>, verify: Verifier, body: Option<Body>, users: map<string, Doc>)
    requires Decide(authHeader, verify, body, users).response.status != 200
    ensures Apply(users, Decide(authHeader, verify, body, users).write) == users
  {
  }
}
