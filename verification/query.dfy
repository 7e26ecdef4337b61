/** The store's query surface used by the listing handlers: an equality filter,
    `countDocuments`, a newest-first sort, and skip/limit pagination. */
module Query {
  import opened Common
  import opened Model

  /** An equality filter document; an absent key does not constrain the field. */
  datatype TaskQuery = TaskQuery(owner: Option<Id>, status: Option<string>, priority: Option<string>)

  predicate Matches(t: Task, q: TaskQuery) {
    && (q.owner.None? || t.userId == q.owner.value)
    && (q.status.None? || t.status == q.status.value)
    && (q.priority.None? || t.priority == q.priority.value)
  }

  /** `countDocuments(query)`: how many stored tasks the filter admits. */
  function Count(tasks: seq<Task>, q: TaskQuery): (n: nat)
    ensures n <= |tasks|
    ensures n == 0 <==> forall k :: 0 <= k < |tasks| ==> !Matches(tasks[k], q)
  {
    if |tasks| == 0 then 0
    else (if Matches(tasks[0], q) then 1 else 0) + Count(tasks[1..], q)
  }

  /** `find(query)` before sorting: the admitted tasks, each as often as stored. */
  function Select(tasks: seq<Task>, q: TaskQuery): (r: seq<Task>)
    ensures forall t :: multiset(r)[t] == if Matches(t, q) then multiset(tasks)[t] else 0
    ensures |r| == Count(tasks, q)
  {
    if |tasks| == 0 then []
    else
      var rest := Select(tasks[1..], q);
      assert tasks == [tasks[0]] + tasks[1..];
      if Matches(tasks[0], q) then [tasks[0]] + rest else rest
  }

  /** `sort({ createdAt: -1 })`: creation times never increase along the list. */
  ghost predicate NewestFirst(s: seq<Task>) {
    forall i, j :: 0 <= i < j < |s| ==> s[i].createdAt >= s[j].createdAt
  }

  /** In a newest-first list the head is at least as new as everything after it. */
  lemma NewestFirstHead(s: seq<Task>)
    requires NewestFirst(s) && |s| > 0
    ensures forall x :: x in s[1..] ==> s[0].createdAt >= x.createdAt
  {
    forall x | x in s[1..] ensures s[0].createdAt >= x.createdAt {
      var j :| 0 <= j < |s[1..]| && s[1..][j] == x;
      assert x == s[j + 1];
    }
  }

  /** Inserting an older task behind the head keeps the head in front of all. */
  lemma HeadBoundsInsert(t: Task, s: seq<Task>, rest: seq<Task>)
    requires NewestFirst(s) && |s| > 0 && s[0].createdAt > t.createdAt
    requires multiset(rest) == multiset(s[1..]) + multiset{t}
    ensures forall x :: x in rest ==> s[0].createdAt >= x.createdAt
  {
    NewestFirstHead(s);
    forall x | x in rest ensures s[0].createdAt >= x.createdAt {
      assert x in multiset(rest);
      if x != t {
        assert x in multiset(s[1..]);
      }
    }
  }

  /** Places `t` ahead of the first task that is not newer than it. */
  function InsertNewest(t: Task, s: seq<Task>): (r: seq<Task>)
    requires NewestFirst(s)
    ensures NewestFirst(r)
    ensures multiset(r) == multiset(s) + multiset{t}
    ensures |r| == |s| + 1
  {
    if |s| == 0 || s[0].createdAt <= t.createdAt then [t] + s
    else
      var rest := InsertNewest(t, s[1..]);
      assert s == [s[0]] + s[1..];
      HeadBoundsInsert(t, s, rest);
      var r := [s[0]] + rest;
      assert forall j :: 0 < j < |r| ==> r[j] == rest[j - 1] && r[j] in rest;
      r
  }

  /** A stable newest-first ordering of `s`; among equal creation times the
      earlier-stored task comes first. */
  function SortNewest(s: seq<Task>): (r: seq<Task>)
    ensures NewestFirst(r)
    ensures multiset(r) == multiset(s)
    ensures |r| == |s|
  {
    if |s| == 0 then []
    else
      assert s == [s[0]] + s[1..];
      InsertNewest(s[0], SortNewest(s[1..]))
  }

  /** `skip(skip).limit(limit)` on an already ordered result. */
  function Slice(s: seq<Task>, skip: nat, limit: nat): (r: seq<Task>)
    ensures |r| == Min(limit, Max(0, |s| - skip))
    ensures forall i :: 0 <= i < |r| ==> r[i] == s[skip + i]
  {
    if skip >= |s| then [] else s[skip..Min(skip + limit, |s|)]
  }

  /** `Math.ceil(n / d)` for a positive divisor. */
  function CeilDiv(n: nat, d: nat): (r: nat)
    requires d > 0
    ensures r * d >= n
    ensures r > 0 ==> (r - 1) * d < n
  {
    var r := (n + d - 1) / d;
    var m := (n + d - 1) % d;
    assert n + d - 1 == r * d + m;
    assert (r - 1) * d == r * d - d;
    r
  }

  /** The pagination envelope shared by every list endpoint. */
  datatype Page<T> = Page(count: nat, total: nat, page: int, pages: nat, data: seq<T>)

  /** The listing query string: optional filters, optional page and limit. */
  datatype ListQuery = ListQuery(status: Option<string>, priority: Option<string>, page: Option<int>, limit: Option<int>)

  const DefaultPage: int := 1
  const DefaultLimit: int := 10

  /** Page and limit, when given, are positive (string coercion is not modelled). */
  predicate PagingOk(q: ListQuery) {
    (q.page.None? || q.page.value >= 1) && (q.limit.None? || q.limit.value >= 1)
  }

  function PageNumber(q: ListQuery): (p: int)
    requires PagingOk(q)
    ensures p >= 1
    ensures q.page.None? ==> p == DefaultPage
    ensures q.page.Some? ==> p == q.page.value
  {
    q.page.GetOr(DefaultPage)
  }

  function PageSize(q: ListQuery): (l: nat)
    requires PagingOk(q)
    ensures l >= 1
    ensures q.limit.None? ==> l == DefaultLimit
    ensures q.limit.Some? ==> l == q.limit.value
  {
    q.limit.GetOr(DefaultLimit)
  }

  /** A query-string filter is applied only when it is truthy: absent and empty
      strings leave the field unconstrained. */
  function Truthy(v: Option<string>): (r: Option<string>)
    ensures r.Some? <==> v.Some? && v.value != ""
    ensures r.Some? ==> r == v
  {
    if v.Some? && v.value != "" then v else None
  }

  /** How many matches precede the requested page: a full `limit` for each
      earlier page. */
  function Offset(page: int, limit: nat): (skip: nat)
    requires page >= 1
    decreases page
  {
    if page == 1 then 0 else Offset(page - 1, limit) + limit
  }

  /** The skip of page `page` is `(page - 1) * limit`. */
  lemma {:induction false} OffsetIsProduct(page: int, limit: nat)
    requires page >= 1
    ensures Offset(page, limit) == (page - 1) * limit
    decreases page
  {
    if page > 1 {
      OffsetIsProduct(page - 1, limit);
    }
  }

  lemma SliceNewestFirst(s: seq<Task>, skip: nat, limit: nat)
    requires NewestFirst(s)
    ensures NewestFirst(Slice(s, skip, limit))
  {
    var r := Slice(s, skip, limit);
    forall i, j | 0 <= i < j < |r| ensures r[i].createdAt >= r[j].createdAt {
      assert r[i] == s[skip + i] && r[j] == s[skip + j];
    }
  }

  lemma SliceMembers(s: seq<Task>, skip: nat, limit: nat)
    ensures forall t :: t in Slice(s, skip, limit) ==> t in s
  {
    var r := Slice(s, skip, limit);
    forall t | t in r ensures t in s {
      var i :| 0 <= i < |r| && r[i] == t;
      assert s[skip + i] == t;
    }
  }

  lemma SelectMembers(tasks: seq<Task>, q: TaskQuery)
    ensures forall t :: t in SortNewest(Select(tasks, q)) <==> t in tasks && Matches(t, q)
  {
    var m := SortNewest(Select(tasks, q));
    forall t ensures t in m <==> t in tasks && Matches(t, q) {
      assert t in m <==> multiset(m)[t] > 0;
      assert t in tasks <==> multiset(tasks)[t] > 0;
    }
  }

  /** The reference listing: every task the filter admits, each as often as
      stored, newest first. Every page of a listing is a window of it. */
  function Listing(tasks: seq<Task>, q: TaskQuery): (m: seq<Task>)
    ensures NewestFirst(m)
    ensures forall t :: multiset(m)[t] == if Matches(t, q) then multiset(tasks)[t] else 0
    ensures |m| == Count(tasks, q)
  {
    SortNewest(Select(tasks, q))
  }

  /** `data` holds consecutive entries of `m`, starting after the
      `(page - 1) * limit` entries that earlier pages hold. */
  ghost predicate Window<T>(data: seq<T>, m: seq<T>, page: int, limit: nat)
    requires page >= 1
  {
    forall i :: 0 <= i < |data| ==> Offset(page, limit) + i < |m| && data[i] == m[Offset(page, limit) + i]
  }

  /** The envelope arithmetic every list endpoint promises: `count` is the
      length of this page, which holds what remains of `total` after skipping
      `(page - 1) * limit` entries, at most `limit`; `pages` is
      `ceil(total / limit)`, the fewest full pages that reach `total`. */
  ghost predicate Paginated<T>(p: Page<T>, total: nat, page: int, limit: nat)
    requires page >= 1
  {
    && p.total == total
    && p.count == |p.data| == Min(limit, Max(0, total - Offset(page, limit)))
    && p.page == page
    && Offset(p.pages + 1, limit) >= total && (p.pages > 0 ==> Offset(p.pages, limit) < total)
  }

  /** The entries of page `page`: a window of the listing. */
  function PageData(tasks: seq<Task>, q: TaskQuery, page: int, limit: nat): seq<Task>
    requires page >= 1
  {
    Slice(Listing(tasks, q), Offset(page, limit), limit)
  }

  /** Find, sort newest-first, paginate and count, as each list handler does. */
  function Find(tasks: seq<Task>, q: TaskQuery, page: int, limit: nat): (p: Page<Task>)
    requires page >= 1 && limit >= 1
    ensures forall t :: t in p.data ==> t in tasks && Matches(t, q)
    ensures NewestFirst(p.data)
    ensures Paginated(p, Count(tasks, q), page, limit)
    ensures Window(p.data, Listing(tasks, q), page, limit)
    ensures p.data == PageData(tasks, q, page, limit)
  {
    var matched := Listing(tasks, q);
    var data := PageData(tasks, q, page, limit);
    SliceMembers(matched, Offset(page, limit), limit);
    SliceNewestFirst(matched, Offset(page, limit), limit);
    CoveringOffset(Count(tasks, q), limit);
    SelectMembers(tasks, q);
    Page(|data|, Count(tasks, q), page, CeilDiv(Count(tasks, q), limit), data)
  }

  /** The page holding position `i` (counting from 0) of an `n`-long listing. */
  lemma PageOfPosition(i: nat, n: nat, limit: nat) returns (p: int)
    requires limit >= 1 && i < n
    ensures 1 <= p <= CeilDiv(n, limit)
    ensures Offset(p, limit) <= i < Offset(p, limit) + limit
  {
    var k := i / limit;
    assert i == k * limit + i % limit;
    p := k + 1;
    var pages := CeilDiv(n, limit);
    if k + 1 > pages {
      MulMonotone(pages, k, limit);
      assert false;
    }
    OffsetIsProduct(p, limit);
  }

  lemma MulMonotone(a: nat, b: nat, c: nat)
    requires a <= b
    ensures a * c <= b * c
  {
  }

  lemma SliceHolds(s: seq<Task>, skip: nat, limit: nat, i: nat)
    requires skip <= i < skip + limit && i < |s|
    ensures s[i] in Slice(s, skip, limit)
  {
    assert Slice(s, skip, limit)[i - skip] == s[i];
  }

  /** Every task the filter admits is listed on some page between 1 and `pages`. */
  lemma {:induction false} FindListsEveryMatch(tasks: seq<Task>, q: TaskQuery, limit: nat, t: Task)
    requires limit >= 1
    requires t in tasks && Matches(t, q)
    ensures exists p :: 1 <= p <= Find(tasks, q, 1, limit).pages && t in Find(tasks, q, p, limit).data
  {
    var matched := Listing(tasks, q);
    SelectMembers(tasks, q);
    var i :| 0 <= i < |matched| && matched[i] == t;
    var p := PageOfPosition(i, |matched|, limit);
    SliceHolds(matched, Offset(p, limit), limit, i);
    FindUnfold(tasks, q, p, limit);
    FindUnfold(tasks, q, 1, limit);
    assert 1 <= p <= Find(tasks, q, 1, limit).pages && t in Find(tasks, q, p, limit).data;
  }

  lemma FindUnfold(tasks: seq<Task>, q: TaskQuery, page: int, limit: nat)
    requires page >= 1 && limit >= 1
    ensures Find(tasks, q, page, limit).data == PageData(tasks, q, page, limit)
    ensures Find(tasks, q, page, limit).data == Slice(Listing(tasks, q), Offset(page, limit), limit)
    ensures Find(tasks, q, page, limit).pages == CeilDiv(Count(tasks, q), limit)
  {
  }

  /** `n == k * d + r` with `0 <= r < d` fixes the remainder of `n` by `d`. */
  lemma RemainderUnique(n: nat, k: nat, d: nat, r: nat)
    requires d >= 1 && r < d && n == k * d + r
    ensures n % d == r
  {
    var q := n / d;
    var m := n % d;
    assert n == q * d + m;
    assert (k - q) * d == m - r;
    SmallMultipleIsZero(k - q, d);
  }

  /** The only multiple of `d` strictly between `-d` and `d` is zero. */
  lemma SmallMultipleIsZero(x: int, d: int)
    requires d >= 1 && -d < x * d < d
    ensures x == 0
  {
  }

  /** The arithmetic of the last page: with `pages = ceil(n / limit)`, what is
      left after `pages - 1` full pages is `n mod limit`, or `limit`. */
  lemma LastPageArithmetic(n: nat, limit: nat, pages: nat)
    requires limit >= 1 && n > 0 && pages == CeilDiv(n, limit)
    ensures pages >= 1
    ensures Min(limit, Max(0, n - Offset(pages, limit))) == (if n % limit == 0 then limit else n % limit)
  {
    assert pages >= 1;
    OffsetIsProduct(pages, limit);
    var skip := Offset(pages, limit);
    assert skip == pages * limit - limit;
    var r := n - skip;
    assert 1 <= r <= limit;
    if r == limit {
      assert n == pages * limit + 0;
      RemainderUnique(n, pages, limit, 0);
    } else {
      RemainderUnique(n, pages - 1, limit, r);
    }
  }

  /** Any envelope for the last page reports the remainder as its count. */
  lemma LastPageCount<T>(p: Page<T>, n: nat, limit: nat, last: nat)
    requires limit >= 1 && n > 0 && last == CeilDiv(n, limit)
    requires last >= 1 && Paginated(p, n, last, limit)
    ensures p.count == (if n % limit == 0 then limit else n % limit)
  {
    LastPageArithmetic(n, limit, last);
  }

  /** The last page holds the remainder: `total mod limit` entries, or a full
      page when the limit divides the total. */
  lemma {:induction false} LastPageHoldsRemainder(tasks: seq<Task>, q: TaskQuery, limit: nat)
    requires limit >= 1 && Count(tasks, q) > 0
    ensures var n := Count(tasks, q);
      var last := Find(tasks, q, 1, limit).pages;
      && last >= 1
      && Find(tasks, q, last, limit).count == (if n % limit == 0 then limit else n % limit)
  {
    var n := Count(tasks, q);
    var last := Find(tasks, q, 1, limit).pages;
    FindUnfold(tasks, q, 1, limit);
    LastPageArithmetic(n, limit, last);
    LastPageCount(Find(tasks, q, last, limit), n, limit, last);
  }

  /** A later page starts at least one full page after an earlier one. */
  lemma {:induction false} LaterPageStartsAfter(p1: int, p2: int, limit: nat)
    requires 1 <= p1 < p2
    ensures Offset(p1, limit) + limit <= Offset(p2, limit)
    decreases p2
  {
    if p2 > p1 + 1 {
      LaterPageStartsAfter(p1, p2 - 1, limit);
    }
  }

  /** Two slices of a newest-first list, the second starting where or after
      the first ends, hold entries in the same order. */
  lemma SlicesInOrder(m: seq<Task>, w1: nat, w2: nat, limit: nat, t1: Task, t2: Task)
    requires NewestFirst(m) && w1 + limit <= w2
    requires t1 in Slice(m, w1, limit) && t2 in Slice(m, w2, limit)
    ensures t1.createdAt >= t2.createdAt
  {
    var d1 := Slice(m, w1, limit);
    var d2 := Slice(m, w2, limit);
    var i :| 0 <= i < |d1| && d1[i] == t1;
    var j :| 0 <= j < |d2| && d2[j] == t2;
    assert d1[i] == m[w1 + i] && d2[j] == m[w2 + j];
  }

  /** Moving to a later page never moves to a newer task: whatever page `p1`
      lists is at least as new as whatever a later page `p2` lists. */
  lemma {:induction false} PagesInOrder(tasks: seq<Task>, q: TaskQuery, limit: nat, p1: int, p2: int)
    requires limit >= 1 && 1 <= p1 < p2
    ensures forall t1, t2 :: t1 in Find(tasks, q, p1, limit).data && t2 in Find(tasks, q, p2, limit).data ==>
              t1.createdAt >= t2.createdAt
  {
    FindUnfold(tasks, q, p1, limit);
    FindUnfold(tasks, q, p2, limit);
    LaterPageStartsAfter(p1, p2, limit);
    forall t1, t2 | t1 in Find(tasks, q, p1, limit).data && t2 in Find(tasks, q, p2, limit).data
      ensures t1.createdAt >= t2.createdAt
    {
      SlicesInOrder(Listing(tasks, q), Offset(p1, limit), Offset(p2, limit), limit, t1, t2);
    }
  }

  lemma OffsetStep(k: int, limit: nat)
    requires k >= 1
    ensures Offset(k + 1, limit) == Offset(k, limit) + limit
  {
  }

  /** A prefix followed by the slice after it is a longer prefix. */
  lemma PrefixThenSlice(m: seq<Task>, a: nat, limit: nat)
    ensures m[..Min(a, |m|)] + Slice(m, a, limit) == m[..Min(a + limit, |m|)]
  {
    if a < |m| {
      assert m[..a] + m[a..Min(a + limit, |m|)] == m[..Min(a + limit, |m|)];
    }
  }

  /** A list of pages, joined in order. */
  function Join(ps: seq<seq<Task>>): seq<Task> {
    if |ps| == 0 then [] else Join(ps[..|ps| - 1]) + ps[|ps| - 1]
  }

  /** Pages that are consecutive `limit`-sized slices of `m`, joined, are the
      first `|ps| * limit` entries of `m`. */
  lemma {:induction false} JoinSlices(ps: seq<seq<Task>>, m: seq<Task>, limit: nat)
    requires forall j :: 0 <= j < |ps| ==> ps[j] == Slice(m, Offset(j + 1, limit), limit)
    ensures Join(ps) == m[..Min(Offset(|ps| + 1, limit), |m|)]
  {
    if |ps| > 0 {
      var k := |ps|;
      JoinSlices(ps[..k - 1], m, limit);
      PrefixThenSlice(m, Offset(k, limit), limit);
      OffsetStep(k, limit);
    }
  }

  /** The entries of pages 1 to `ceil(total / limit)` of a listing, in page
      order: entry `j` is what `Find` lists on page `j + 1`. */
  function AllPages(tasks: seq<Task>, q: TaskQuery, limit: nat): seq<seq<Task>>
    requires limit >= 1
  {
    seq(CeilDiv(Count(tasks, q), limit), j requires 0 <= j => PageData(tasks, q, j + 1, limit))
  }

  /** The pages from 1 to `pages`, joined, are exactly the newest-first listing
      of all matches: no entry is skipped, repeated or moved, so each stored
      matching task occurs across the pages exactly as often as it is stored. */
  lemma {:induction false} PagesCoverListing(tasks: seq<Task>, q: TaskQuery, limit: nat)
    requires limit >= 1
    ensures Join(AllPages(tasks, q, limit)) == Listing(tasks, q)
    ensures forall t :: multiset(Join(AllPages(tasks, q, limit)))[t] == if Matches(t, q) then multiset(tasks)[t] else 0
  {
    PagesJoinToListing(tasks, q, limit);
  }

  lemma {:induction false} PagesJoinToListing(tasks: seq<Task>, q: TaskQuery, limit: nat)
    requires limit >= 1
    ensures Join(AllPages(tasks, q, limit)) == Listing(tasks, q)
  {
    var m := Listing(tasks, q);
    var ps := AllPages(tasks, q, limit);
    assert |ps| == CeilDiv(|m|, limit);
    assert forall j :: 0 <= j < |ps| ==> ps[j] == Slice(m, Offset(j + 1, limit), limit);
    JoinCovers(ps, m, limit);
  }

  /** `ceil(|m| / limit)` consecutive page-sized slices of `m` join to `m`. */
  lemma JoinCovers(ps: seq<seq<Task>>, m: seq<Task>, limit: nat)
    requires limit >= 1 && |ps| == CeilDiv(|m|, limit)
    requires forall j :: 0 <= j < |ps| ==> ps[j] == Slice(m, Offset(j + 1, limit), limit)
    ensures Join(ps) == m
  {
    JoinSlices(ps, m, limit);
    CoveringOffset(|m|, limit);
    assert m[..|m|] == m;
  }

  /** `ceil(n / limit)` full pages reach the end of an `n`-long listing, and
      one page fewer does not. */
  lemma CoveringOffset(n: nat, limit: nat)
    requires limit >= 1
    ensures Offset(CeilDiv(n, limit) + 1, limit) >= n
    ensures CeilDiv(n, limit) > 0 ==> Offset(CeilDiv(n, limit), limit) < n
  {
    OffsetIsProduct(CeilDiv(n, limit) + 1, limit);
    if CeilDiv(n, limit) > 0 {
      OffsetIsProduct(CeilDiv(n, limit), limit);
    }
  }
}
