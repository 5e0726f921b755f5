/** The token handling of the backend's Firebase Admin wrapper: `extractToken`
    and the shape of a verified ID token. Verifying the token itself is done
    by the identity service and is modelled as an oracle. */
module FirebaseAdmin {
  import opened Wrappers
  import opened JsString

  /** The claims of a verified ID token that the routes read. */
  datatype Claims = Claims(uid: Option<string>, email: Option<string>)

  /** `verifyIdToken`: the claims of a valid token, or the message of the
      error it throws. */
  type Verifier = string -> Result<Claims>

  /** The identity service's accounts, from uid to email address. */
  class IdentityService {
    var accounts: map<string, string>

    constructor (accounts: map<string, string>)
      ensures this.accounts == accounts
    {
      this.accounts := accounts;
    }

    /** Record an account that `createUser` has created. */
    method AddAccount(uid: string, email: string)
      modifies this
      ensures accounts == old(accounts)[uid := email]
    {
      accounts := accounts[uid := email];
    }
  }

  /** `extractToken(authHeader)`: "Bearer <t>" (exactly one space) gives t, any
      other non-empty header is taken as the token itself. */
  function ExtractToken(authHeader: Option<string>): (r: Option<string>)
    ensures r.None? <==> authHeader.None? || authHeader == Some("")
    ensures r.Some? ==> authHeader.Some? && |r.value| <= |authHeader.value|
    ensures r.Some? && r.value != authHeader.value ==> authHeader.value == "Bearer " + r.value && ' ' !in r.value
  {
    match authHeader
    case None => None
    case Some(h) =>
      if h == "" then None
      else
        var parts := Split(h, ' ');
        JoinSplit(h, ' ');
        SplitPiecesFree(h, ' ');
        if |parts| == 2 && parts[0] == "Bearer" then
          assert Join(parts, " ") == "Bearer" + " " + parts[1];
          Some(parts[1])
        else Some(h)
  }

  /** "Bearer t" with a space-free t yields t. */
  lemma BearerToken(t: string)
    requires ' ' !in t
    ensures ExtractToken(Some("Bearer " + t)) == Some(t)
  {
    SplitCons("Bearer", ' ', t);
    assert "Bearer" + [' '] + t == "Bearer " + t;
  }

  /** "Bearer " with nothing after the space yields the empty token, which
      every caller then rejects as missing. */
  lemma BearerEmpty()
    ensures ExtractToken(Some("Bearer ")) == Some("")
  {
    BearerToken("");
  }

  /** A non-empty header without a space is used as the token unchanged. */
  lemma BareToken(h: string)
    requires h != "" && ' ' !in h
    ensures ExtractToken(Some(h)) == Some(h)
  {
  }

  /** Only the exact scheme "Bearer" is stripped: a header of any other
      space-free first word, "bearer" and "Basic" among them, is passed
      through whole. */
  lemma OtherSchemeUnchanged(scheme: string, t: string)
    requires scheme != "Bearer" && ' ' !in scheme
    ensures ExtractToken(Some(scheme + " " + t)) == Some(scheme + " " + t)
  {
    SplitCons(scheme, ' ', t);
    assert scheme + [' '] + t == scheme + " " + t;
  }

  /** A header that does not split into exactly two pieces at its spaces is
      passed through whole. */
  lemma ManyPiecesUnchanged(h: string)
    requires h != "" && |Split(h, ' ')| != 2
    ensures ExtractToken(Some(h)) == Some(h)
  {
  }

  /** A header with two spaces after "Bearer" is passed through whole. */
  lemma TwoSpacesUnchanged(a: string, b: string)
    requires ' ' !in a && ' ' !in b
    ensures ExtractToken(Some("Bearer " + a + " " + b)) == Some("Bearer " + a + " " + b)
  {
    var h := "Bearer " + a + " " + b;
    assert h == "Bearer" + [' '] + (a + [' '] + b);
    SplitThree("Bearer", a, b, ' ');
    ManyPiecesUnchanged(h);
  }
}
