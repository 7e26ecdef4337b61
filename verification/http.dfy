/** Requests and responses as the handlers see them: the parsed JSON body, the
    identity the authentication gate attaches, and the response envelope. */
module Http {
  import opened Common
  import opened Model
  import opened Query

  /** The JSON body fields any handler or validator reads; an absent key is `None`. */
  datatype Body = Body(
    email: Option<string>,
    password: Option<string>,
    role: Option<string>,
    title: Option<string>,
    description: Option<string>,
    status: Option<string>,
    priority: Option<string>,
    dueDate: Option<string>,
    userId: Option<Id>)

  const EmptyBody: Body := Body(None, None, None, None, None, None, None, None, None)

  /** The identity attached to a request once its bearer token is verified. */
  datatype Identity = Identity(id: Id, email: string, role: Role)

  /** The public projection of an account: never the password hash. */
  datatype PublicUser = PublicUser(id: Id, email: string, role: Role)

  /** A signed token, kept as the claim set it carries. */
  datatype Token = Token(id: Id, email: string, role: Role)

  /** One entry of a validation error list: the body field and its message. */
  datatype FieldError = FieldError(path: string, msg: string)

  /** A listed task with its owner reference resolved to the owner's email and
      role, or to nothing when no such user exists. */
  datatype PopulatedTask = PopulatedTask(task: Task, owner: Option<PublicUser>)

  datatype Payload =
    | Failure(error: string)
    | Invalid(errors: seq<FieldError>)
    | Unauthenticated
    | Forbidden
    | TaskList(list: Page<Task>)
    | AdminTaskList(populated: Page<PopulatedTask>)
    | UserTaskList(user: PublicUser, userList: Page<Task>)
    | OneTask(task: Task)
    | Deleted(message: string)
    | Registered(message: string, account: PublicUser)
    | LoggedIn(token: Token, profile: PublicUser)

  datatype Response = Response(status: int, payload: Payload)

  /** What one handled request yields: the response and the store after it. */
  datatype Step = Step(response: Response, store: Store)

  datatype Method = Get | Post | Put | Delete | Patch

  /** A request as a router sees it; `P` is that router's set of paths. */
  datatype Request<P> = Request(verb: Method, path: P, auth: Option<Identity>, query: ListQuery, body: Body)

  /** A router either answers a request or passes it on to whatever the
      application mounts after it. */
  datatype Routed = Handled(step: Step) | PassedOn

  function Project(u: User): PublicUser {
    PublicUser(u.id, u.email, u.role)
  }
}
