/** The admin router: `protect`, then `authorize('admin')`, in front of every
    request, then the route table. */
module AdminRoutes {
  import opened Common
  import opened Model
  import opened Query
  import opened Http
  import opened Gates
  import opened AdminController

  datatype AdminPath = AllTasks | UserTasks(id: Id) | Unrouted

  const AdminOnly: set<Role> := {AdminRole}

  /** Both listings read page and limit, which must then be positive when
      given; a request `protect` or `authorize` turns away never reaches the
      query string. */
  predicate ListingPagingOk(req: Request<AdminPath>) {
    req.auth.Some? && req.auth.value.role == AdminRole && req.verb == Get && !req.path.Unrouted? ==> PagingOk(req.query)
  }

  function Dispatch(st: Store, req: Request<AdminPath>): (r: Routed)
    requires ListingPagingOk(req)
    ensures r.Handled? ==> r.step.store == st
    ensures req.auth.None? ==> r == Handled(Step(Response(401, Unauthenticated), st))
    ensures req.auth.Some? && req.auth.value.role != AdminRole ==> r == Handled(Step(Response(403, Forbidden), st))
    ensures r.PassedOn? <==> req.auth.Some? && req.auth.value.role == AdminRole && !(req.verb == Get && !req.path.Unrouted?)
    ensures r.Handled? && r.step.response.status !in {401, 403} ==>
              req.auth.Some? && req.auth.value.role == AdminRole && req.verb == Get && !req.path.Unrouted?
  {
    match Protect(req.auth)
    case Some(denied) => Handled(Step(denied, st))
    case None =>
      match Authorize(req.auth.value, AdminOnly)
      case Some(denied) => Handled(Step(denied, st))
      case None =>
        match (req.verb, req.path)
        case (Get, AllTasks) => Handled(GetAllTasks(st, req.query))
        case (Get, UserTasks(id)) => Handled(GetUserTasks(st, id, req.query))
        case _ => PassedOn
  }

  /** Only an authenticated admin reaches either listing, and then the route
      table picks the handler by path. */
  lemma AdminReachesHandlers(st: Store, req: Request<AdminPath>)
    requires ListingPagingOk(req)
    requires req.auth.Some? && req.auth.value.role == AdminRole && req.verb == Get
    ensures req.path == AllTasks ==> Dispatch(st, req) == Handled(GetAllTasks(st, req.query))
    ensures req.path.UserTasks? ==> Dispatch(st, req) == Handled(GetUserTasks(st, req.path.id, req.query))
  {
  }
}
