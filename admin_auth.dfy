/**
 * `authenticateAdmin`, the admin check of the Next.js API routes. The token
 * is the `token` cookie; `verifyToken` is not modelled and its outcome is an
 * input: a decoded payload, `null`, or a thrown error.
 */
module AdminAuth {
  import opened Wrappers

  const AdminLevel := "Admin"

  /** The payload a token decodes to. */
  datatype Payload = Payload(userId: string, username: string, accessLevel: string)

  /** What `verifyToken` does with a token. */
  datatype Verification = Decoded(payload: Option<Payload>) | Threw

  predicate IsAdmin(v: Verification) {
    v.Decoded? && v.payload.Some? && v.payload.value.accessLevel == AdminLevel
  }

  /**
   * `authenticateAdmin`: the decoded payload when the cookie holds a token
   * that decodes to an administrator, and `null` in every other case.
   * `verify` is what `verifyToken` does with the cookie's token.
   */
  function AuthenticateAdmin(token: Option<string>, verify: Verification): (r: Option<Payload>)
    ensures !Truthy(token) ==> r.None?
    ensures Truthy(token) && verify.Threw? ==> r.None?
    ensures r.Some? ==> r.value.accessLevel == AdminLevel
    ensures r.Some? <==> Truthy(token) && IsAdmin(verify)
    ensures r.Some? ==> verify == Decoded(r)
  {
    if !Truthy(token) then None
    else match verify
      case Threw => None
      case Decoded(decoded) =>
        if decoded.None? || decoded.value.accessLevel != AdminLevel then None else decoded
  }
}
