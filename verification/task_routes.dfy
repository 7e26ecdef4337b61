/** The task router: `protect` in front of every request, then the route
    table, with a validation chain ahead of create and update. */
module TaskRoutes {
  import opened Common
  import opened Model
  import opened Query
  import opened Http
  import opened Validators
  import opened Gates
  import opened TaskController

  datatype TaskPath = Root | ById(id: Id) | Unrouted

  /** Listing reads page and limit, which must then be positive when given;
      a request `protect` turns away never reaches the query string. */
  predicate ListingPagingOk(req: Request<TaskPath>) {
    req.auth.Some? && req.verb == Get && req.path == Root ==> PagingOk(req.query)
  }

  function Dispatch(st: Store, req: Request<TaskPath>, chk: Checks, now: int): (r: Routed)
    requires ListingPagingOk(req)
    ensures req.auth.None? ==> r == Handled(Step(Response(401, Unauthenticated), st))
    ensures r.PassedOn? <==> req.auth.Some? && !IsRoute(req.verb, req.path)
    ensures r.Handled? && r.step.store != st ==>
              && req.auth.Some?
              && ((req.verb == Post && req.path == Root && r.step.response.status == 201)
                  || (req.verb in {Put, Delete} && req.path.ById? && r.step.response.status == 200))
    ensures req.auth.Some? && req.verb == Post && req.path == Root ==>
              && r.Handled?
              && (r.step.response.status == 400 <==> ValidateTask(req.body, chk).Failed?)
              && (r.step.response.status == 400 ==> r.step.store == st)
              && (r.step.response.status != 400 ==> NewTaskWasValid(st, r.step, req.auth.value, req.body))
    ensures req.auth.Some? && req.verb == Put && req.path.ById? ==>
              && r.Handled?
              && (r.step.response.status == 400 <==> ValidateTaskUpdate(req.body, chk).Failed?)
              && (r.step.response.status == 400 ==> r.step.store == st)
  {
    match Protect(req.auth)
    case Some(denied) => Handled(Step(denied, st))
    case None =>
      var caller := req.auth.value;
      match (req.verb, req.path)
      case (Get, Root) => Handled(GetTasks(st, caller, req.query))
      case (Post, Root) =>
        var c := ValidateTask(req.body, chk);
        if c.Failed? then Handled(Step(Reject(c), st)) else Handled(CreateTask(st, caller, c.body, now))
      case (Get, ById(id)) => Handled(GetTaskById(st, caller, id))
      case (Put, ById(id)) =>
        var c := ValidateTaskUpdate(req.body, chk);
        if c.Failed? then Handled(Step(Reject(c), st)) else Handled(UpdateTask(st, caller, id, c.body))
      case (Delete, ById(id)) => Handled(DeleteTask(st, caller, id))
      case _ => PassedOn
  }

  /** The five routes the table answers. */
  predicate IsRoute(m: Method, p: TaskPath) {
    (p == Root && m in {Get, Post}) || (p.ById? && m in {Get, Put, Delete})
  }

  /** A task created through the router: owned by the caller, with the
      non-empty title as sent (then trimmed) and an allowed status and priority. */
  ghost predicate NewTaskWasValid(st: Store, s: Step, caller: Identity, b: Body) {
    && s.response.status == 201
    && s.response.payload.OneTask?
    && var t := s.response.payload.task;
    && s.store.tasks == st.tasks + [t]
    && t.userId == caller.id
    && b.title.Some? && b.title.value != "" && t.title == Some(Trim(b.title.value))
    && t.status in Statuses && t.priority in Priorities
  }

  /** An update body is validated before the task is looked up: an invalid
      body gets 400 even when no task has that id. */
  lemma {:induction false} UpdateValidationBeforeLookup(st: Store, req: Request<TaskPath>, chk: Checks, now: int)
    requires req.auth.Some? && req.verb == Put && req.path.ById?
    requires Lookup(st.tasks, req.path.id).None?
    requires ValidateTaskUpdate(req.body, chk).Failed?
    ensures Dispatch(st, req, chk, now) == Handled(Step(Response(400, Invalid(ValidateTaskUpdate(req.body, chk).errors)), st))
  {
  }

  /** Listing, reading and deleting run no body validation: the body has no
      effect on them. */
  lemma BodyIgnoredWithoutValidator(st: Store, req: Request<TaskPath>, other: Body, chk: Checks, now: int)
    requires ListingPagingOk(req)
    requires (req.verb == Get && req.path == Root) || (req.verb in {Get, Delete} && req.path.ById?)
    ensures Dispatch(st, req, chk, now) == Dispatch(st, req.(body := other), chk, now)
  {
  }

  /** Once `protect` lets a request through, the route table picks the
      handler: listing, reading and deleting directly, creating and updating
      only with a body that passed its validator, and then with the sanitized
      body. */
  lemma RoutesReachHandlers(st: Store, req: Request<TaskPath>, chk: Checks, now: int)
    requires ListingPagingOk(req) && req.auth.Some?
    ensures var caller := req.auth.value;
      && (req.verb == Get && req.path == Root ==> Dispatch(st, req, chk, now) == Handled(GetTasks(st, caller, req.query)))
      && (req.verb == Get && req.path.ById? ==> Dispatch(st, req, chk, now) == Handled(GetTaskById(st, caller, req.path.id)))
      && (req.verb == Delete && req.path.ById? ==> Dispatch(st, req, chk, now) == Handled(DeleteTask(st, caller, req.path.id)))
      && (req.verb == Post && req.path == Root && ValidateTask(req.body, chk).Passed? ==>
            Dispatch(st, req, chk, now) == Handled(CreateTask(st, caller, ValidateTask(req.body, chk).body, now)))
      && (req.verb == Put && req.path.ById? && ValidateTaskUpdate(req.body, chk).Passed? ==>
            Dispatch(st, req, chk, now) == Handled(UpdateTask(st, caller, req.path.id, ValidateTaskUpdate(req.body, chk).body)))
  {
  }
}
