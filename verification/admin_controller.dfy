/** The admin read-only listings: every task, and one user's tasks. */
module AdminController {
  import opened Common
  import opened Model
  import opened Query
  import opened Http

  const UserNotFound := "User not found"

  /** The filter `getAllTasks` builds: no owner, status and priority when truthy. */
  function AllQuery(q: ListQuery): (r: TaskQuery)
    ensures forall t :: Matches(t, r) <==>
      && (q.status.None? || q.status.value == "" || t.status == q.status.value)
      && (q.priority.None? || q.priority.value == "" || t.priority == q.priority.value)
  {
    TaskQuery(None, Truthy(q.status), Truthy(q.priority))
  }

  /** The filter `getUserTasks` builds: the owner only. */
  function UserQuery(id: Id): (r: TaskQuery)
    ensures forall t :: Matches(t, r) <==> t.userId == id
  {
    TaskQuery(Some(id), None, None)
  }

  /** `populate('userId', 'email role')`: the owner's public projection, or
      nothing when the owner no longer exists. */
  function Populate(users: seq<User>, t: Task): (pt: PopulatedTask)
    ensures pt.task == t
    ensures pt.owner.None? <==> forall k :: 0 <= k < |users| ==> users[k].id != t.userId
    ensures pt.owner.Some? ==>
              && pt.owner.value.id == t.userId
              && Project(users[FindUserById(users, t.userId).value]) == pt.owner.value
  {
    match FindUserById(users, t.userId)
    case None => PopulatedTask(t, None)
    case Some(i) => PopulatedTask(t, Some(Project(users[i])))
  }

  /** The tasks of a populated listing, owners stripped. */
  function TasksOf(s: seq<PopulatedTask>): (ts: seq<Task>)
    ensures |ts| == |s| && forall i :: 0 <= i < |s| ==> ts[i] == s[i].task
  {
    seq(|s|, i requires 0 <= i < |s| => s[i].task)
  }

  /** A page of tasks with every owner resolved; the envelope is kept. */
  function PopulatePage(users: seq<User>, p: Page<Task>): (r: Page<PopulatedTask>)
    ensures r.count == p.count && r.total == p.total && r.page == p.page && r.pages == p.pages
    ensures TasksOf(r.data) == p.data
    ensures forall i :: 0 <= i < |r.data| ==> r.data[i] == Populate(users, p.data[i])
  {
    var data := seq(|p.data|, i requires 0 <= i < |p.data| => Populate(users, p.data[i]));
    assert TasksOf(data) == p.data;
    Page(p.count, p.total, p.page, p.pages, data)
  }

  /** Replacing the entries of a page one for one keeps its envelope valid. */
  lemma PaginatedKeepsEnvelope<T, U>(p: Page<T>, r: Page<U>, total: nat, page: int, limit: nat)
    requires page >= 1 && Paginated(p, total, page, limit)
    requires r.count == p.count && r.total == p.total && r.page == p.page && r.pages == p.pages
    requires |r.data| == |p.data|
    ensures Paginated(r, total, page, limit)
  {
  }

  /** `getAllTasks`: every owner's tasks, filtered, newest first, one page,
      each with its owner resolved. */
  function GetAllTasks(st: Store, q: ListQuery): (s: Step)
    requires PagingOk(q)
    ensures s.store == st
    ensures s.response.status == 200 && s.response.payload.AdminTaskList?
    ensures var p := s.response.payload.populated;
      && (forall t :: t in TasksOf(p.data) ==> t in st.tasks && Matches(t, AllQuery(q)))
      && NewestFirst(TasksOf(p.data))
      && (forall i :: 0 <= i < |p.data| ==> p.data[i] == Populate(st.users, p.data[i].task))
      && Paginated(p, Count(st.tasks, AllQuery(q)), PageNumber(q), PageSize(q))
      && Window(TasksOf(p.data), Listing(st.tasks, AllQuery(q)), PageNumber(q), PageSize(q))
  {
    var page := Find(st.tasks, AllQuery(q), PageNumber(q), PageSize(q));
    var r := PopulatePage(st.users, page);
    PaginatedKeepsEnvelope(page, r, Count(st.tasks, AllQuery(q)), PageNumber(q), PageSize(q));
    Step(Response(200, AdminTaskList(r)), st)
  }

  /** A filter that admits more tasks never counts fewer. */
  lemma {:induction false} CountMonotone(tasks: seq<Task>, q1: TaskQuery, q2: TaskQuery)
    requires forall t :: Matches(t, q1) ==> Matches(t, q2)
    ensures Count(tasks, q1) <= Count(tasks, q2)
  {
    if |tasks| > 0 {
      CountMonotone(tasks[1..], q1, q2);
    }
  }

  /** The admin total counts every owner's matching tasks: it is at least any
      single user's total under the same filters, and every matching task of
      any owner is listed on some page. */
  lemma {:induction false} GetAllTasksCoversEveryOwner(st: Store, q: ListQuery, caller: Identity, t: Task)
    requires PagingOk(q)
    requires t in st.tasks && Matches(t, AllQuery(q))
    ensures Count(st.tasks, TaskQuery(Some(caller.id), Truthy(q.status), Truthy(q.priority))) <= GetAllTasks(st, q).response.payload.populated.total
    ensures exists p ::
              && 1 <= p <= GetAllTasks(st, q.(page := None)).response.payload.populated.pages
              && t in TasksOf(GetAllTasks(st, q.(page := Some(p))).response.payload.populated.data)
  {
    CountMonotone(st.tasks, TaskQuery(Some(caller.id), Truthy(q.status), Truthy(q.priority)), AllQuery(q));
    AllTasksIsFind(st, q);
    FindListsEveryMatch(st.tasks, AllQuery(q), PageSize(q), t);
    var p :| 1 <= p <= Find(st.tasks, AllQuery(q), 1, PageSize(q)).pages
      && t in Find(st.tasks, AllQuery(q), p, PageSize(q)).data;
    AllTasksIsFind(st, q.(page := None));
    AllTasksIsFind(st, q.(page := Some(p)));
  }

  /** The admin listing is the store's find under the admin filter, owners
      resolved. */
  lemma AllTasksIsFind(st: Store, q: ListQuery)
    requires PagingOk(q)
    ensures var p := GetAllTasks(st, q).response.payload.populated;
      var f := Find(st.tasks, AllQuery(q), PageNumber(q), PageSize(q));
      && TasksOf(p.data) == f.data && p.total == f.total && p.pages == f.pages
      && AllQuery(q) == AllQuery(q.(page := None))
      && (forall n :: AllQuery(q) == AllQuery(q.(page := Some(n))))
      && PageSize(q) == PageSize(q.(page := None))
  {
  }

  /** `getUserTasks`: 404 when the user does not exist; otherwise that user's
      tasks, newest first, one page, with the user's public projection. */
  function GetUserTasks(st: Store, id: Id, q: ListQuery): (s: Step)
    requires PagingOk(q)
    ensures s.store == st
    ensures s.response.status in {200, 404}
    ensures s.response.status == 404 <==> forall k :: 0 <= k < |st.users| ==> st.users[k].id != id
    ensures s.response.status == 404 ==> s.response.payload == Failure(UserNotFound)
    ensures s.response.status == 200 ==> s.response.payload.UserTaskList?
    ensures s.response.status == 200 ==>
              var u := s.response.payload.user;
              var p := s.response.payload.userList;
              && u.id == id
              && (exists k :: 0 <= k < |st.users| && st.users[k].id == id && st.users[k].email == u.email && st.users[k].role == u.role)
              && (forall t :: t in p.data ==> t in st.tasks && t.userId == id)
              && NewestFirst(p.data)
              && Paginated(p, Count(st.tasks, UserQuery(id)), PageNumber(q), PageSize(q))
              && Window(p.data, Listing(st.tasks, UserQuery(id)), PageNumber(q), PageSize(q))
  {
    match FindUserById(st.users, id)
    case None => Step(Response(404, Failure(UserNotFound)), st)
    case Some(i) =>
      var page := Find(st.tasks, UserQuery(id), PageNumber(q), PageSize(q));
      Step(Response(200, UserTaskList(Project(st.users[i]), page)), st)
  }

  /** A missing user answers 404 before any task is looked at: the task
      collection has no influence on the response. */
  lemma UserMissingIgnoresTasks(st: Store, others: seq<Task>, id: Id, q: ListQuery)
    requires PagingOk(q)
    requires forall k :: 0 <= k < |st.users| ==> st.users[k].id != id
    ensures GetUserTasks(st, id, q).response == GetUserTasks(st.(tasks := others), id, q).response
  {
  }
}
