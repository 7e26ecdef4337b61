/** The two middleware gates in front of the handlers. Their source is not part
    of this model: `protect` is represented by the identity its token check
    yields, and `authorize` by role-set membership. */
module Gates {
  import opened Common
  import opened Model
  import opened Http

  /** `protect`: a request without a verified identity stops with 401. */
  function Protect(auth: Option<Identity>): (r: Option<Response>)
    ensures r.Some? <==> auth.None?
    ensures r.Some? ==> r.value.status == 401
  {
    if auth.None? then Some(Response(401, Unauthenticated)) else None
  }

  /** `authorize(...roles)`: an identity whose role is not listed stops with 403. */
  function Authorize(who: Identity, roles: set<Role>): (r: Option<Response>)
    ensures r.Some? <==> who.role !in roles
    ensures r.Some? ==> r.value.status == 403
  {
    if who.role in roles then None else Some(Response(403, Forbidden))
  }
}
