/** What the backend's route handlers share: the status-and-error shape of
    their JSON responses and the administrator test that each admin route
    (and the frontend's auth context) writes out inline. */
module Http {
  import opened Wrappers
  import opened JsString
  import opened FirebaseAdmin

  /** A JSON response: its HTTP status and the `error` field, if any. */
  datatype Response = Response(status: nat, error: Option<string>)

  function Ok(): Response { Response(200, None) }

  function Error(status: nat, message: string): Response {
    Response(status, Some(message))
  }

  /** The single configured administrator address. */
  const AdminEmail: string := "admin@mitaoe.ac.in"

  /** `decoded.email?.toLowerCase() === "admin@mitaoe.ac.in"`. */
  predicate IsAdminEmail(email: Option<string>) {
    email.Some? && Lower(email.value) == AdminEmail
  }

  /** The administrator test ignores the case of the address, and accepts no
      other address. */
  lemma AdminEmailCaseInsensitive(email: string)
    ensures IsAdminEmail(Some(email)) <==> Lower(email) == AdminEmail
    ensures IsAdminEmail(Some(email)) ==> IsAdminEmail(Some(Lower(email)))
  {
    LowerIsLowerCase(email);
  }

  /** How the token-and-administrator preamble of an admin route ends. */
  datatype AdminGate = MissingToken | VerifyThrew | Forbidden | Admitted(claims: Claims)

  /** The preamble each admin route writes out: extract the token (401 when
      falsy), verify it (a throw reaches the route's 500 handler), and
      require the administrator address (403 otherwise). */
  function CheckAdmin(authHeader: Option<string>, verify: Verifier): (g: AdminGate)
    ensures g.MissingToken? <==> !Present(ExtractToken(authHeader))
    ensures g.Admitted? ==> IsAdminEmail(g.claims.email)
    ensures !g.MissingToken? ==>
      var t := ExtractToken(authHeader).value;
      (g.VerifyThrew? <==> verify(t).Failure?) &&
      (g.Forbidden? <==> verify(t).Success? && !IsAdminEmail(verify(t).value.email)) &&
      (g.Admitted? ==> verify(t) == Success(g.claims))
  {
    var token := ExtractToken(authHeader);
    if !Present(token) then MissingToken
    else
      var decoded := verify(token.value);
      if decoded.Failure? then VerifyThrew
      else if !IsAdminEmail(decoded.value.email) then Forbidden
      else Admitted(decoded.value)
  }

  /** The preamble admits a request exactly when it carries a token the
      verifier accepts for the administrator address. */
  lemma AdmittedIffAdministrator(authHeader: Option<string>, verify: Verifier)
    ensures CheckAdmin(authHeader, verify).Admitted? <==>
      Present(ExtractToken(authHeader)) &&
      verify(ExtractToken(authHeader).value).Success? &&
      IsAdminEmail(verify(ExtractToken(authHeader).value).value.email)
  {
  }
}
