/** `GET /api/admin/list-users`: the administrator's user list, one entry per
    account of the first page of the identity service, each joined with the
    `verified` flag of the user's profile document. */
module ListUsersRoute {
  import opened Wrappers
  import opened JsString
  import opened Store
  import opened FirebaseAdmin
  import opened Http

  /** The page size the handler asks for. */
  const PageSize: nat := 1000

  /** An account record of the identity service, as far as it is listed. */
  datatype AuthRecord = AuthRecord(
    uid: string, email: Option<string>, emailVerified: bool, displayName: Option<string>,
    photoURL: Option<string>, disabled: bool, creationTime: string, lastSignInTime: string)

  /** One listed user. `verified` is the stored value when it is truthy, so it
      is not necessarily a boolean. */
  datatype ListedUser = ListedUser(
    uid: string, email: Option<string>, emailVerified: bool, displayName: Option<string>,
    photoURL: Option<string>, disabled: bool, verified: Value, creationTime: string, lastSignInTime: string)

  /** The per-record projection: the account's fields and
      `userData?.verified || false`. */
  function Project(rec: AuthRecord, users: map<string, Doc>): (u: ListedUser)
    ensures u.uid == rec.uid && u.email == rec.email
    ensures !Truthy(Field(if rec.uid in users then Some(users[rec.uid]) else None, "verified")) ==> u.verified == Bool(false)
    ensures Truthy(u.verified) ==> rec.uid in users && "verified" in users[rec.uid] && u.verified == users[rec.uid]["verified"]
  {
    var userData := if rec.uid in users then Some(users[rec.uid]) else None;
    var stored := Field(userData, "verified");
    ListedUser(rec.uid, rec.email, rec.emailVerified, rec.displayName, rec.photoURL, rec.disabled,
               if Truthy(stored) then stored else Bool(false), rec.creationTime, rec.lastSignInTime)
  }

  /** `listUsersResult.users.map(...)`. */
  function ProjectAll(records: seq<AuthRecord>, users: map<string, Doc>): (r: seq<ListedUser>)
    ensures |r| == |records|
    ensures forall i :: 0 <= i < |r| ==> r[i] == Project(records[i], users)
  {
    seq(|records|, i requires 0 <= i < |records| => Project(records[i], users))
  }

  datatype Outcome = Listed(users: seq<ListedUser>) | Refused(response: Response)

  /** The handler's decision. `accounts` is every account of the identity
      service in listing order, or None when listing throws. */
  function Decide(authHeader: Option<string>, verify: Verifier, accounts: Option<seq<AuthRecord>>, users: map<string, Doc>): (o: Outcome)
    ensures CheckAdmin(authHeader, verify).MissingToken? ==> o == Refused(Error(401, "Missing token"))
    ensures CheckAdmin(authHeader, verify).Forbidden? ==> o == Refused(Error(403, "Forbidden"))
    ensures CheckAdmin(authHeader, verify).VerifyThrew? || (CheckAdmin(authHeader, verify).Admitted? && accounts.None?) ==>
      o == Refused(Error(500, "Failed to fetch users"))
    ensures o.Listed? <==> CheckAdmin(authHeader, verify).Admitted? && accounts.Some?
    ensures o.Listed? ==> |o.users| == (if |accounts.value| <= PageSize then |accounts.value| else PageSize)
    ensures o.Listed? ==> forall i :: 0 <= i < |o.users| ==> o.users[i] == Project(accounts.value[i], users)
  {
    match CheckAdmin(authHeader, verify)
    case MissingToken => Refused(Error(401, "Missing token"))
    case VerifyThrew => Refused(Error(500, "Failed to fetch users"))
    case Forbidden => Refused(Error(403, "Forbidden"))
    case Admitted(_) =>
      if accounts.None? then Refused(Error(500, "Failed to fetch users"))
      else
        var page := if |accounts.value| <= PageSize then accounts.value else accounts.value[..PageSize];
        Listed(ProjectAll(page, users))
  }

  /** A user whose profile is missing, or whose `verified` field is missing or
      falsy, is listed as not verified. */
  lemma UnverifiedDefault(authHeader: Option<string>, verify: Verifier, accounts: Option<seq<AuthRecord>>, users: map<string, Doc>, i: nat)
    requires Decide(authHeader, verify, accounts, users).Listed? && i < |Decide(authHeader, verify, accounts, users).users|
    requires var uid := accounts.value[i].uid;
      uid !in users || "verified" !in users[uid] || !Truthy(users[uid]["verified"])
    ensures Decide(authHeader, verify, accounts, users).users[i].verified == Bool(false)
  {
  }

  /** Of the profile documents, listing reads only the `verified` field: two
      stores that agree on it give the same list. */
  lemma OnlyVerifiedFieldRead(authHeader: Option<string>, verify: Verifier, accounts: Option<seq<AuthRecord>>,
                              users1: map<string, Doc>, users2: map<string, Doc>)
    requires forall uid :: Field(if uid in users1 then Some(users1[uid]) else None, "verified") ==
                           Field(if uid in users2 then Some(users2[uid]) else None, "verified")
    ensures Decide(authHeader, verify, accounts, users1) == Decide(authHeader, verify, accounts, users2)
  {
    if Decide(authHeader, verify, accounts, users1).Listed? {
      var page := if |accounts.value| <= PageSize then accounts.value else accounts.value[..PageSize];
      assert ProjectAll(page, users1) == ProjectAll(page, users2) by {
        forall i | 0 <= i < |page| ensures Project(page[i], users1) == Project(page[i], users2) {
          var uid := page[i].uid;
          assert Field(if uid in users1 then Some(users1[uid]) else None, "verified") ==
                 Field(if uid in users2 then Some(users2[uid]) else None, "verified");
        }
      }
    }
  }
}
