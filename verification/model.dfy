/** The entities the handlers work on and the abstract document store that
    holds them. */
module Model {
  import opened Common

  datatype Role = UserRole | AdminRole

  /** A stored account. The password is only ever held as the hasher's output. */
  datatype User = User(id: Id, email: string, passwordHash: string, role: Role)

  /** A stored task; `userId` references the owning user. */
  datatype Task = Task(
    id: Id,
    title: Option<string>,
    description: Option<string>,
    status: string,
    priority: string,
    dueDate: Option<string>,
    userId: Id,
    createdAt: int)

  /** Both collections in natural (insertion) order, plus the next fresh id. */
  datatype Store = Store(users: seq<User>, tasks: seq<Task>, nextId: Id)

  /** Defaults the store fills in when a created document omits the field. */
  const DefaultRole: Role := UserRole
  const DefaultStatus: string := "todo"
  const DefaultPriority: string := "medium"

  /** The values the request validators admit for `status` and `priority`. */
  const Statuses: set<string> := {"todo", "in_progress", "done"}
  const Priorities: set<string> := {"low", "medium", "high"}

  /** What the store guarantees of its contents: unique ids, unique emails,
      and every id below the allocator. */
  ghost predicate Valid(st: Store) {
    && (forall i, j :: 0 <= i < j < |st.users| ==> st.users[i].id != st.users[j].id)
    && (forall i, j :: 0 <= i < j < |st.users| ==> st.users[i].email != st.users[j].email)
    && (forall i, j :: 0 <= i < j < |st.tasks| ==> st.tasks[i].id != st.tasks[j].id)
    && (forall i :: 0 <= i < |st.users| ==> st.users[i].id < st.nextId)
    && (forall i :: 0 <= i < |st.tasks| ==> st.tasks[i].id < st.nextId)
  }

  /** `findById` on the task collection. */
  function FindTask(tasks: seq<Task>, id: Id): (r: Option<nat>)
    ensures r.Some? ==> r.value < |tasks| && tasks[r.value].id == id
    ensures r.None? <==> forall k :: 0 <= k < |tasks| ==> tasks[k].id != id
  {
    FirstIndex(tasks, (t: Task) => t.id == id)
  }

  /** `findById` on the user collection. */
  function FindUserById(users: seq<User>, id: Id): (r: Option<nat>)
    ensures r.Some? ==> r.value < |users| && users[r.value].id == id
    ensures r.None? <==> forall k :: 0 <= k < |users| ==> users[k].id != id
  {
    FirstIndex(users, (u: User) => u.id == id)
  }

  /** `findOne({ email })` on the user collection: the first account with that email. */
  function FindUserByEmail(users: seq<User>, email: string): (r: Option<nat>)
    ensures r.Some? ==> r.value < |users| && users[r.value].email == email
    ensures r.Some? ==> forall k :: 0 <= k < r.value ==> users[k].email != email
    ensures r.None? <==> forall k :: 0 <= k < |users| ==> users[k].email != email
  {
    FirstIndex(users, (u: User) => u.email == email)
  }
}
