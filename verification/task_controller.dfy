/** The ownership-scoped task handlers: list, create, read, update, delete. */
module TaskController {
  import opened Common
  import opened Model
  import opened Query
  import opened Http

  const NotFoundMessage := "Task not found"
  const AccessDenied := "Not authorized to access this task"
  const UpdateDenied := "Not authorized to update this task"
  const DeleteDenied := "Not authorized to delete this task"
  const DeletedMessage := "Task deleted successfully"

  /** The filter `getTasks` builds: always the caller's id, plus status and
      priority when they are truthy. */
  function OwnQuery(caller: Identity, q: ListQuery): (r: TaskQuery)
    ensures forall t :: Matches(t, r) <==>
      && t.userId == caller.id
      && (q.status.None? || q.status.value == "" || t.status == q.status.value)
      && (q.priority.None? || q.priority.value == "" || t.priority == q.priority.value)
  {
    TaskQuery(Some(caller.id), Truthy(q.status), Truthy(q.priority))
  }

  /** `getTasks`: the caller's own tasks, filtered, newest first, one page. */
  function GetTasks(st: Store, caller: Identity, q: ListQuery): (s: Step)
    requires PagingOk(q)
    ensures s.store == st
    ensures s.response.status == 200 && s.response.payload.TaskList?
    ensures var p := s.response.payload.list;
      && (forall t :: t in p.data ==> t in st.tasks && t.userId == caller.id)
      && (q.status.Some? && q.status.value != "" ==> forall t :: t in p.data ==> t.status == q.status.value)
      && (q.priority.Some? && q.priority.value != "" ==> forall t :: t in p.data ==> t.priority == q.priority.value)
      && NewestFirst(p.data)
      && Paginated(p, Count(st.tasks, OwnQuery(caller, q)), PageNumber(q), PageSize(q))
      && Window(p.data, Listing(st.tasks, OwnQuery(caller, q)), PageNumber(q), PageSize(q))
  {
    Step(Response(200, TaskList(Find(st.tasks, OwnQuery(caller, q), PageNumber(q), PageSize(q)))), st)
  }

  /** With a status or priority filter absent or empty, that field does not
      constrain the listing: every own task matching the other filter is
      listed on some page, whatever its value of the unfiltered field. */
  lemma {:induction false} GetTasksListsEveryMatch(st: Store, caller: Identity, q: ListQuery, t: Task)
    requires PagingOk(q)
    requires t in st.tasks && t.userId == caller.id
    requires q.status.None? || q.status.value == "" || t.status == q.status.value
    requires q.priority.None? || q.priority.value == "" || t.priority == q.priority.value
    ensures exists p ::
              && 1 <= p <= GetTasks(st, caller, q.(page := None)).response.payload.list.pages
              && t in GetTasks(st, caller, q.(page := Some(p))).response.payload.list.data
  {
    assert Matches(t, OwnQuery(caller, q));
    FindListsEveryMatch(st.tasks, OwnQuery(caller, q), PageSize(q), t);
    var p :| 1 <= p <= Find(st.tasks, OwnQuery(caller, q), 1, PageSize(q)).pages
      && t in Find(st.tasks, OwnQuery(caller, q), p, PageSize(q)).data;
    OwnTasksIsFind(st, caller, q.(page := None));
    OwnTasksIsFind(st, caller, q.(page := Some(p)));
  }

  /** The caller's listing is the store's find under the caller's filter. */
  lemma OwnTasksIsFind(st: Store, caller: Identity, q: ListQuery)
    requires PagingOk(q)
    ensures GetTasks(st, caller, q).response.payload.list == Find(st.tasks, OwnQuery(caller, q), PageNumber(q), PageSize(q))
    ensures forall r: ListQuery :: r.status == q.status && r.priority == q.priority ==> OwnQuery(caller, r) == OwnQuery(caller, q)
  {
  }

  /** `createTask`: a new task owned by the caller, built from the body's title,
      description, status, priority and due date only. */
  function CreateTask(st: Store, caller: Identity, b: Body, now: int): (s: Step)
    ensures s.response.status == 201 && s.response.payload.OneTask?
    ensures var t := s.response.payload.task;
      && t.userId == caller.id
      && t.id == st.nextId
      && t.title == b.title && t.description == b.description && t.dueDate == b.dueDate
      && t.status == b.status.GetOr(DefaultStatus) && t.priority == b.priority.GetOr(DefaultPriority)
      && t.createdAt == now
      && s.store.tasks == st.tasks + [t]
    ensures s.store.users == st.users && s.store.nextId > st.nextId
  {
    var t := Task(st.nextId, b.title, b.description, b.status.GetOr(DefaultStatus),
                  b.priority.GetOr(DefaultPriority), b.dueDate, caller.id, now);
    Step(Response(201, OneTask(t)), st.(tasks := st.tasks + [t], nextId := st.nextId + 1))
  }

  /** Two bodies that agree on the five task fields create the same task: an
      owner id, role or anything else in the body has no effect. */
  lemma CreateReadsOnlyTaskFields(st: Store, caller: Identity, b1: Body, b2: Body, now: int)
    requires b1.title == b2.title && b1.description == b2.description && b1.status == b2.status
    requires b1.priority == b2.priority && b1.dueDate == b2.dueDate
    ensures CreateTask(st, caller, b1, now) == CreateTask(st, caller, b2, now)
  {
  }

  /** `findById`: the stored task with that id, if any. */
  function Lookup(tasks: seq<Task>, id: Id): (r: Option<Task>)
    ensures r.Some? ==> r.value in tasks && r.value.id == id
    ensures r.None? <==> forall k :: 0 <= k < |tasks| ==> tasks[k].id != id
  {
    match FindTask(tasks, id)
    case Some(i) => Some(tasks[i])
    case None => None
  }

  /** The guard shared by read, update and delete: existence first (404), then
      ownership (403). `Granted` carries the position of the found task. */
  datatype Access = Granted(index: nat) | Denied(response: Response)

  function Guard(tasks: seq<Task>, id: Id, caller: Identity, denied: string): (g: Access)
    ensures g.Granted? ==> g.index < |tasks| && tasks[g.index].id == id
    ensures g.Granted? <==> Lookup(tasks, id).Some? && Lookup(tasks, id).value.userId == caller.id
    ensures g.Granted? ==> tasks[g.index] == Lookup(tasks, id).value
    ensures g.Denied? && g.response.status == 404 <==> Lookup(tasks, id).None?
    ensures g.Denied? && g.response.status == 403 <==> Lookup(tasks, id).Some? && Lookup(tasks, id).value.userId != caller.id
    ensures g.Denied? ==> g.response.status in {403, 404}
    ensures g.Denied? && g.response.status == 404 ==> g.response.payload == Failure(NotFoundMessage)
    ensures g.Denied? && g.response.status == 403 ==> g.response.payload == Failure(denied)
  {
    match FindTask(tasks, id)
    case None => Denied(Response(404, Failure(NotFoundMessage)))
    case Some(i) =>
      if tasks[i].userId != caller.id then Denied(Response(403, Failure(denied)))
      else Granted(i)
  }

  /** `getTaskById`. */
  function GetTaskById(st: Store, caller: Identity, id: Id): (s: Step)
    ensures s.store == st
    ensures s.response.status == 404 <==> Lookup(st.tasks, id).None?
    ensures s.response.status == 403 <==> Lookup(st.tasks, id).Some? && Lookup(st.tasks, id).value.userId != caller.id
    ensures s.response.status == 200 <==> Lookup(st.tasks, id).Some? && Lookup(st.tasks, id).value.userId == caller.id
    ensures s.response.status == 200 ==> s.response.payload == OneTask(Lookup(st.tasks, id).value)
  {
    match Guard(st.tasks, id, caller, AccessDenied)
    case Denied(r) => Step(r, st)
    case Granted(i) => Step(Response(200, OneTask(st.tasks[i])), st)
  }

  /** `findByIdAndUpdate(id, body)`: every task field the body carries is
      overwritten, including the owner reference; the others are kept. */
  function ApplyUpdate(t: Task, b: Body): (r: Task)
    ensures r.id == t.id && r.createdAt == t.createdAt
    ensures r.title == (if b.title.Some? then b.title else t.title)
    ensures r.description == (if b.description.Some? then b.description else t.description)
    ensures r.status == b.status.GetOr(t.status) && r.priority == b.priority.GetOr(t.priority)
    ensures r.dueDate == (if b.dueDate.Some? then b.dueDate else t.dueDate)
    ensures r.userId == b.userId.GetOr(t.userId)
  {
    t.(title := if b.title.Some? then b.title else t.title,
       description := if b.description.Some? then b.description else t.description,
       status := b.status.GetOr(t.status),
       priority := b.priority.GetOr(t.priority),
       dueDate := if b.dueDate.Some? then b.dueDate else t.dueDate,
       userId := b.userId.GetOr(t.userId))
  }

  /** Overwriting with the same body a second time changes nothing more. */
  lemma ApplyUpdateIdempotent(t: Task, b: Body)
    ensures ApplyUpdate(ApplyUpdate(t, b), b) == ApplyUpdate(t, b)
  {
  }

  /** `updateTask`. */
  function UpdateTask(st: Store, caller: Identity, id: Id, b: Body): (s: Step)
    ensures s.response.status in {200, 403, 404}
    ensures s.response.status == 404 <==> Lookup(st.tasks, id).None?
    ensures s.response.status == 403 <==> Lookup(st.tasks, id).Some? && Lookup(st.tasks, id).value.userId != caller.id
    ensures s.response.status != 200 ==> s.store == st
    ensures s.response.status == 200 ==>
      var i := FindTask(st.tasks, id).value;
      && s.response.payload == OneTask(ApplyUpdate(st.tasks[i], b))
      && |s.store.tasks| == |st.tasks|
      && s.store.tasks[i] == ApplyUpdate(st.tasks[i], b)
      && (forall k :: 0 <= k < |st.tasks| && k != i ==> s.store.tasks[k] == st.tasks[k])
      && s.store.users == st.users && s.store.nextId == st.nextId
  {
    match Guard(st.tasks, id, caller, UpdateDenied)
    case Denied(r) => Step(r, st)
    case Granted(i) =>
      var t := ApplyUpdate(st.tasks[i], b);
      Step(Response(200, OneTask(t)), st.(tasks := st.tasks[i := t]))
  }

  /** `deleteTask`. */
  function DeleteTask(st: Store, caller: Identity, id: Id): (s: Step)
    ensures s.response.status in {200, 403, 404}
    ensures s.response.status == 404 <==> Lookup(st.tasks, id).None?
    ensures s.response.status == 403 <==> Lookup(st.tasks, id).Some? && Lookup(st.tasks, id).value.userId != caller.id
    ensures s.response.status != 200 ==> s.store == st
    ensures s.response.status == 200 ==>
      && s.response.payload == Deleted(DeletedMessage)
      && multiset(st.tasks) == multiset(s.store.tasks) + multiset{Lookup(st.tasks, id).value}
      && s.store.users == st.users && s.store.nextId == st.nextId
  {
    match Guard(st.tasks, id, caller, DeleteDenied)
    case Denied(r) => Step(r, st)
    case Granted(i) =>
      var rest := st.tasks[..i] + st.tasks[i + 1..];
      assert st.tasks == st.tasks[..i] + [st.tasks[i]] + st.tasks[i + 1..];
      Step(Response(200, Deleted(DeletedMessage)), st.(tasks := rest))
  }

  // ---------------------------------------------------------------------------
  // Properties across requests

  /** Creation keeps the store valid: the new task takes the fresh id. */
  lemma CreatePreservesValid(st: Store, caller: Identity, b: Body, now: int)
    requires Valid(st)
    ensures Valid(CreateTask(st, caller, b, now).store)
  {
  }

  /** An update never changes ids, so the store stays valid. */
  lemma UpdatePreservesValid(st: Store, caller: Identity, id: Id, b: Body)
    requires Valid(st)
    ensures Valid(UpdateTask(st, caller, id, b).store)
  {
  }

  /** Deletion keeps the store valid. */
  lemma DeletePreservesValid(st: Store, caller: Identity, id: Id)
    requires Valid(st)
    ensures Valid(DeleteTask(st, caller, id).store)
  {
    var s := DeleteTask(st, caller, id);
    if s.response.status == 200 {
      var i := FindTask(st.tasks, id).value;
      assert s.store.tasks == st.tasks[..i] + st.tasks[i + 1..];
    }
  }

  /** In a valid store a successful delete leaves no task with that id, so
      deleting it again answers 404 and changes nothing. */
  lemma {:induction false} DeleteTwice(st: Store, caller: Identity, id: Id)
    requires Valid(st)
    requires DeleteTask(st, caller, id).response.status == 200
    ensures var s1 := DeleteTask(st, caller, id).store;
      && Lookup(s1.tasks, id).None?
      && DeleteTask(s1, caller, id) == Step(Response(404, Failure(NotFoundMessage)), s1)
  {
    var i := FindTask(st.tasks, id).value;
    var s1 := DeleteTask(st, caller, id).store;
    assert s1.tasks == st.tasks[..i] + st.tasks[i + 1..];
    forall k | 0 <= k < |s1.tasks| ensures s1.tasks[k].id != id {
      if k < i {
        assert s1.tasks[k] == st.tasks[k];
      } else {
        assert s1.tasks[k] == st.tasks[k + 1];
      }
    }
    assert FindTask(s1.tasks, id).None?;
  }

  /** Repeating a successful update with the same body yields the same state,
      provided the body does not hand the task to another owner. */
  lemma {:induction false} UpdateTwice(st: Store, caller: Identity, id: Id, b: Body)
    requires UpdateTask(st, caller, id, b).response.status == 200
    requires b.userId.None? || b.userId.value == caller.id
    ensures var s1 := UpdateTask(st, caller, id, b);
      UpdateTask(s1.store, caller, id, b) == s1
  {
    var i := FindTask(st.tasks, id).value;
    var s1 := UpdateTask(st, caller, id, b);
    assert FindTask(s1.store.tasks, id) == Some(i) by {
      assert forall k :: 0 <= k < i ==> s1.store.tasks[k] == st.tasks[k];
    }
    ApplyUpdateIdempotent(st.tasks[i], b);
  }

  /** The body is applied as a whole, owner id included: an owner who updates
      with another user's id in the body loses the task, and the same update
      repeated is then refused with 403. */
  lemma {:induction false} UpdateCanTransferOwnership(st: Store, caller: Identity, id: Id, b: Body)
    requires UpdateTask(st, caller, id, b).response.status == 200
    requires b.userId.Some? && b.userId.value != caller.id
    ensures var s1 := UpdateTask(st, caller, id, b).store;
      && UpdateTask(s1, caller, id, b).response.status == 403
      && Lookup(s1.tasks, id).value.userId == b.userId.value
  {
    var i := FindTask(st.tasks, id).value;
    var s1 := UpdateTask(st, caller, id, b).store;
    assert FindTask(s1.tasks, id) == Some(i) by {
      assert forall k :: 0 <= k < i ==> s1.tasks[k] == st.tasks[k];
    }
  }

  /** A task one user creates is visible to nobody else: another user's read,
      update or delete of it answers 403 (not 404) and changes nothing, while
      its creator reads it back. */
  lemma {:induction false} OthersAreForbidden(st: Store, owner: Identity, other: Identity, b: Body, now: int, ub: Body)
    requires Valid(st)
    requires owner.id != other.id
    ensures var s1 := CreateTask(st, owner, b, now).store;
      && GetTaskById(s1, other, st.nextId) == Step(Response(403, Failure(AccessDenied)), s1)
      && UpdateTask(s1, other, st.nextId, ub) == Step(Response(403, Failure(UpdateDenied)), s1)
      && DeleteTask(s1, other, st.nextId) == Step(Response(403, Failure(DeleteDenied)), s1)
      && GetTaskById(s1, owner, st.nextId).response == CreateTask(st, owner, b, now).response.(status := 200)
  {
    var s1 := CreateTask(st, owner, b, now).store;
    var r := FindTask(s1.tasks, st.nextId);
    assert s1.tasks[|st.tasks|].id == st.nextId;
    assert r.Some?;
    assert r.value == |st.tasks|;
  }
}
