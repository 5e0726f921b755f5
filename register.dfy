/** `POST /api/auth/register`: open registration with email and password. The
    address is normalised, checked against the college's allowlist, an
    account is created in the identity service, and a pre-verified profile
    document is written for it. */
module RegisterRoute {
  import opened Wrappers
  import opened JsString
  import opened Store
  import opened Http
  import CollegeEmailDomains

  datatype Body = Body(email: Option<string>, password: Option<string>, collegeSlug: Option<string>)

  /** What an unparsable body is replaced with (`{}`). */
  const EmptyBody: Body := Body(None, None, None)

  /** `createUser({ email, password })` against the service's accounts: an
      address that already has an account is refused with
      "auth/email-already-exists"; otherwise `newUid` is the uid the service
      assigns, or None when it fails for another reason. */
  datatype CreateResult = Created(uid: string) | CreateFailed(code: Option<string>)

  function CreateUser(accounts: map<string, string>, email: string, newUid: Option<string>): (r: CreateResult)
    ensures r.Created? ==> email !in accounts.Values
  {
    if email in accounts.Values then CreateFailed(Some("auth/email-already-exists"))
    else if newUid.None? then CreateFailed(None)
    else Created(newUid.value)
  }

  /** `(body?.email || "").toString().trim().toLowerCase()`. */
  function NormalizedEmail(body: Option<Body>): (email: string)
    ensures IsLowerCase(email) && IsTrimmed(email)
  {
    var raw := body.GetOr(EmptyBody).email.GetOr("");
    TrimSpec(raw);
    LowerIsLowerCase(Trim(raw));
    LowerKeepsTrimmed(Trim(raw));
    Lower(Trim(raw))
  }

  /** `body?.collegeSlug || null`. */
  function RequestSlug(body: Option<Body>): (slug: Option<string>)
    ensures slug.None? <==> !Present(body.GetOr(EmptyBody).collegeSlug)
    ensures slug.Some? ==> slug == body.value.collegeSlug && slug.value != ""
  {
    OrNull(body.GetOr(EmptyBody).collegeSlug)
  }

  /** The profile document of a newly registered account. */
  function InitialProfile(email: string, collegeSlug: Option<string>): Doc {
    map["email" := Str(email), "collegeSlug" := Str(collegeSlug.GetOr("")),
        "preVerified" := Bool(true), "isEmailVerified" := Bool(false), "hasPassword" := Bool(true),
        "createdAt" := ServerTimestamp, "lastLogin" := ServerTimestamp]
  }

  /** The handler's response, the account it creates and the profile it
      writes. */
  datatype Outcome = Outcome(response: Response, account: Option<(string, string)>, write: Option<Write>)

  /** The checks and effects once the body's fields have been read. */
  function DecideFields(email: string, password: string, collegeSlug: Option<string>,
                        accounts: map<string, string>, newUid: Option<string>): (o: Outcome)
    ensures o.account.Some? <==> o.response.status == 200
    ensures o.write.Some? <==> o.response.status == 200
    ensures email == "" || password == "" ==> o == Outcome(Error(400, "Missing email or password"), None, None)
    ensures email != "" && password != "" && !CollegeEmailDomains.Validate(Some(email), collegeSlug).isValid ==>
      o == Outcome(Error(400, CollegeEmailDomains.Validate(Some(email), collegeSlug).error.GetOr("Email domain mismatch")), None, None)
    ensures (email != "" && password != "" && CollegeEmailDomains.Validate(Some(email), collegeSlug).isValid &&
             email in accounts.Values) ==> o == Outcome(Error(400, "Email already exists"), None, None)
    ensures (email != "" && password != "" && CollegeEmailDomains.Validate(Some(email), collegeSlug).isValid &&
             email !in accounts.Values && newUid.None?) ==> o == Outcome(Error(500, "Failed to create user"), None, None)
    ensures o.account.Some? <==>
      email != "" && password != "" && CollegeEmailDomains.Validate(Some(email), collegeSlug).isValid &&
      email !in accounts.Values && newUid.Some?
    ensures o.account.Some? ==>
      o.response == Ok() && o.account.value == (newUid.value, email) &&
      o.write == Some(SetDoc(newUid.value, InitialProfile(email, collegeSlug)))
  {
    if email == "" || password == "" then Outcome(Error(400, "Missing email or password"), None, None)
    else
      var validation := CollegeEmailDomains.Validate(Some(email), collegeSlug);
      if !validation.isValid then Outcome(Error(400, validation.error.GetOr("Email domain mismatch")), None, None)
      else
        match CreateUser(accounts, email, newUid)
        case CreateFailed(code) =>
          if code == Some("auth/email-already-exists") then Outcome(Error(400, "Email already exists"), None, None)
          else Outcome(Error(500, "Failed to create user"), None, None)
        case Created(uid) =>
          Outcome(Ok(), Some((uid, email)), Some(SetDoc(uid, InitialProfile(email, collegeSlug))))
  }

  /** The handler's decision on a request body (None when it is not JSON). */
  function Decide(body: Option<Body>, accounts: map<string, string>, newUid: Option<string>): (o: Outcome)
    ensures o.account.Some? ==> o.account.value.1 == NormalizedEmail(body) && IsLowerCase(o.account.value.1)
  {
    DecideFields(NormalizedEmail(body), body.GetOr(EmptyBody).password.GetOr(""), RequestSlug(body), accounts, newUid)
  }

  /** `POST(request)` against the identity service and the store. */
  method Post(idp: FirebaseAdmin.IdentityService, db: Firestore, body: Option<Body>, newUid: Option<string>)
    returns (response: Response)
    modifies idp, db
    ensures var o := Decide(body, old(idp.accounts), newUid);
      response == o.response &&
      idp.accounts == (if o.account.Some? then old(idp.accounts)[o.account.value.0 := o.account.value.1] else old(idp.accounts)) &&
      db.users == Apply(old(db.users), o.write) &&
      db.connections == old(db.connections)
  {
    response := Perform(idp, db, Decide(body, idp.accounts, newUid));
  }

  /** The effects of an outcome: the account is created, then the profile is
      written, and the outcome's response is sent. */
  method Perform(idp: FirebaseAdmin.IdentityService, db: Firestore, o: Outcome) returns (response: Response)
    modifies idp, db
    ensures response == o.response
    ensures idp.accounts == (if o.account.Some? then old(idp.accounts)[o.account.value.0 := o.account.value.1] else old(idp.accounts))
    ensures db.users == Apply(old(db.users), o.write) && db.connections == old(db.connections)
  {
    if o.account.Some? {
      idp.AddAccount(o.account.value.0, o.account.value.1);
    }
    db.ApplyToUsers(o.write);
    response := o.response;
  }

  /** The address is normalised before any check: two bodies whose addresses
      differ only in case and surrounding whitespace are decided alike. */
  lemma NormalizationFirst(b1: Body, b2: Body, accounts: map<string, string>, newUid: Option<string>)
    requires b1.password == b2.password && b1.collegeSlug == b2.collegeSlug
    requires Lower(Trim(b1.email.GetOr(""))) == Lower(Trim(b2.email.GetOr("")))
    ensures Decide(Some(b1), accounts, newUid) == Decide(Some(b2), accounts, newUid)
  {
    var email, password, slug := NormalizedEmail(Some(b1)), b1.password.GetOr(""), RequestSlug(Some(b1));
    assert NormalizedEmail(Some(b2)) == email;
    assert RequestSlug(Some(b2)) == slug;
    assert Decide(Some(b1), accounts, newUid) == DecideFields(email, password, slug, accounts, newUid);
    assert Decide(Some(b2), accounts, newUid) == DecideFields(email, password, slug, accounts, newUid);
  }

  /** An address refused by the allowlist creates no account and writes
      nothing. */
  lemma InvalidDomainCreatesNothing(body: Option<Body>, accounts: map<string, string>, newUid: Option<string>)
    requires !CollegeEmailDomains.Validate(Some(NormalizedEmail(body)), RequestSlug(body)).isValid
    ensures Decide(body, accounts, newUid).account.None? && Decide(body, accounts, newUid).write.None?
    ensures Decide(body, accounts, newUid).response.status == 400
  {
  }

  /** The new profile is pre-verified, not yet email-verified, has a
      password, and records the normalised address and the request's slug. */
  lemma InitialProfileFields(body: Option<Body>, accounts: map<string, string>, newUid: Option<string>, users: map<string, Doc>)
    requires Decide(body, accounts, newUid).write.Some?
    ensures var uid := Decide(body, accounts, newUid).account.value.0;
      var after := Apply(users, Decide(body, accounts, newUid).write);
      uid in after &&
      after[uid]["preVerified"] == Bool(true) && after[uid]["isEmailVerified"] == Bool(false) &&
      after[uid]["hasPassword"] == Bool(true) && after[uid]["email"] == Str(NormalizedEmail(body)) &&
      RequestSlug(body).Some? && after[uid]["collegeSlug"] == Str(RequestSlug(body).value)
  {
    var email, password, slug := NormalizedEmail(body), body.GetOr(EmptyBody).password.GetOr(""), RequestSlug(body);
    assert Decide(body, accounts, newUid) == DecideFields(email, password, slug, accounts, newUid);
    InitialProfileOf(email, password, slug, accounts, newUid, users);
  }

  /** `InitialProfileFields` once the body's fields have been read. */
  lemma InitialProfileOf(email: string, password: string, slug: Option<string>,
                         accounts: map<string, string>, newUid: Option<string>, users: map<string, Doc>)
    requires DecideFields(email, password, slug, accounts, newUid).write.Some?
    ensures var o := DecideFields(email, password, slug, accounts, newUid);
      var after := Apply(users, o.write);
      var uid := o.account.value.0;
      uid in after &&
      after[uid]["preVerified"] == Bool(true) && after[uid]["isEmailVerified"] == Bool(false) &&
      after[uid]["hasPassword"] == Bool(true) && after[uid]["email"] == Str(email) &&
      slug.Some? && after[uid]["collegeSlug"] == Str(slug.value)
  {
    var o := DecideFields(email, password, slug, accounts, newUid);
    assert CollegeEmailDomains.Validate(Some(email), slug).isValid;
    var doc := InitialProfile(email, slug);
    assert doc["preVerified"] == Bool(true) && doc["isEmailVerified"] == Bool(false) && doc["hasPassword"] == Bool(true);
    assert doc["email"] == Str(email) && doc["collegeSlug"] == Str(slug.value);
    assert Apply(users, o.write)[o.account.value.0] == doc;
  }

  /** An address that already has an account is refused with 400 "Email
      already exists" once it passes the earlier checks. */
  lemma ExistingAddressRefused(body: Option<Body>, accounts: map<string, string>, newUid: Option<string>)
    requires NormalizedEmail(body) != "" && body.GetOr(EmptyBody).password.GetOr("") != ""
    requires CollegeEmailDomains.Validate(Some(NormalizedEmail(body)), RequestSlug(body)).isValid
    requires NormalizedEmail(body) in accounts.Values
    ensures Decide(body, accounts, newUid) == Outcome(Error(400, "Email already exists"), None, None)
  {
  }

  /** Registration never gives an address a second account. */
  lemma NoSecondAccount(body: Option<Body>, accounts: map<string, string>, newUid: Option<string>)
    requires Decide(body, accounts, newUid).account.Some?
    ensures forall uid :: uid in accounts ==> accounts[uid] != Decide(body, accounts, newUid).account.value.1
  {
  }
}
