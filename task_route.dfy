/** The /api/tasks handlers. GET lists the caller's tasks, narrowed by an optional status
    and an optional search text, newest first, one page at a time, with the total and the
    page count. POST creates a task owned by the caller. */
module TaskRoute {
  import opened Common
  import opened JsText
  import opened TaskSchema

  // ---------------------------------------------------------------------------
  // Responses
  // ---------------------------------------------------------------------------

  /** An HTTP response: a status code with a body, or a status code with an error message. */
  datatype Response<T> = Success(code: nat, body: T) | Failure(code: nat, message: string)

  const UnauthorizedMessage: string := "Unauthorized"
  const MissingFieldsMessage: string := "Title and description are required"
  const InternalErrorMessage: string := "Internal server error"

  // ---------------------------------------------------------------------------
  // Query string
  // ---------------------------------------------------------------------------

  /** The request's query string as URLSearchParams holds it: name/value pairs in order. */
  type Params = seq<(string, string)>

  /** URLSearchParams.get: the value of the first pair called `name`, None when there is none. */
  function Param(ps: Params, name: string): (r: Option<string>)
    ensures r.Some? ==> exists i :: 0 <= i < |ps| && ps[i] == (name, r.value)
                                   && forall j :: 0 <= j < i ==> ps[j].0 != name
    ensures r.None? ==> forall i :: 0 <= i < |ps| ==> ps[i].0 != name
  {
    if ps == [] then None
    else if ps[0].0 == name then Some(ps[0].1)
    else Param(ps[1..], name)
  }

  /** `parseInt(searchParams.get(name) || fallback)`: a missing or empty parameter reads as
      the fallback. */
  function IntParam(ps: Params, name: string, fallback: string): Option<int> {
    ParseInt(if Truthy(Param(ps, name)) then Param(ps, name).value else fallback)
  }

  /** The requested page: a missing or empty parameter asks for page 1. */
  function PageParam(ps: Params): (r: Option<int>)
    ensures !Truthy(Param(ps, "page")) ==> r == Some(1)
  {
    assert DecimalString(1) == "1";
    ParseDecimal(1);
    IntParam(ps, "page", "1")
  }

  /** The requested page size: a missing or empty parameter asks for 10 tasks. */
  function LimitParam(ps: Params): (r: Option<int>)
    ensures !Truthy(Param(ps, "limit")) ==> r == Some(10)
  {
    assert DecimalString(1) == "1";
    assert DecimalString(10) == "10";
    ParseDecimal(10);
    IntParam(ps, "limit", "10")
  }

  /** Page and limit parse to positive integers, which the handler takes for granted. */
  predicate PagingOk(ps: Params) {
    && PageParam(ps).Some? && PageParam(ps).value >= 1
    && LimitParam(ps).Some? && LimitParam(ps).value >= 1
  }

  /** A search text the database refuses as a `$regex` pattern: one holding a NUL
      character. The find then throws, and GET answers 500 from its catch. */
  predicate SearchRefused(ps: Params) {
    Truthy(Param(ps, "search")) && '\0' in Param(ps, "search").value
  }

  /** A query string the model covers: positive paging and a search text without
      regular-expression metacharacters. */
  predicate ListRequestOk(ps: Params) {
    PagingOk(ps) && (Param(ps, "search").Some? ==> IsLiteralPattern(Param(ps, "search").value))
  }


  // ---------------------------------------------------------------------------
  // The query and what it matches
  // ---------------------------------------------------------------------------

  /** The filter GET sends to the collection: always the owner; a status and a search text
      only when the request asked for them. */
  datatype Query = Query(userId: UserId, status: Option<string>, search: Option<string>)

  /** The filter for caller `userId` and query string `ps`: a status restriction unless the
      parameter is missing, empty or "all"; a search unless it is missing or empty. */
  function QueryFor(userId: UserId, ps: Params): (r: Query)
    ensures r.userId == userId
    ensures r.status.Some? <==> Truthy(Param(ps, "status")) && Param(ps, "status").value != "all"
    ensures r.status.Some? ==> r.status == Param(ps, "status")
    ensures r.search.Some? <==> Truthy(Param(ps, "search"))
    ensures r.search.Some? ==> r.search == Param(ps, "search")
  {
    var status := Param(ps, "status");
    var search := Param(ps, "search");
    Query(userId,
          if Truthy(status) && status.value != "all" then status else None,
          if Truthy(search) then search else None)
  }

  /** GET builds its filter by adding fields to a document one condition at a time. */
  method BuildQuery(userId: UserId, ps: Params) returns (q: Query)
    ensures q == QueryFor(userId, ps)
  {
    q := Query(userId, None, None);
    var status := Param(ps, "status");
    var search := Param(ps, "search");
    if Truthy(status) && status.value != "all" {
      q := q.(status := status);
    }
    if Truthy(search) {
      q := q.(search := search);
    }
  }

  /** A task satisfies the filter: same owner, the requested status if any, and the search
      text in its title or its description, ignoring ASCII case, if any. */
  predicate MatchesQuery(q: Query, t: Task) {
    && t.userId == q.userId
    && (q.status.Some? ==> StatusName(t.status) == q.status.value)
    && (q.search.Some? ==> ContainsIgnoringCase(t.title, q.search.value)
                           || ContainsIgnoringCase(t.description, q.search.value))
  }

  /** What the filter means for one request: the owner is always the caller; a status is
      enforced exactly when the parameter is present, non-empty and not "all". */
  lemma QueryForMeaning(userId: UserId, ps: Params, t: Task)
    ensures MatchesQuery(QueryFor(userId, ps), t) ==> t.userId == userId
    ensures var status := Param(ps, "status");
      (MatchesQuery(QueryFor(userId, ps), t) && Truthy(status) && status.value != "all")
        ==> StatusName(t.status) == status.value
    ensures var status := Param(ps, "status");
      !(Truthy(status) && status.value != "all") ==>
        (MatchesQuery(QueryFor(userId, ps), t) <==> MatchesQuery(QueryFor(userId, ps).(status := None), t))
  {
  }

  /** Task.find(query): the matching tasks, in collection order. */
  function Find(tasks: seq<Task>, q: Query): (r: seq<Task>)
    ensures forall t :: t in r ==> t in tasks && MatchesQuery(q, t)
  {
    if tasks == [] then []
    else (if MatchesQuery(q, tasks[0]) then [tasks[0]] else []) + Find(tasks[1..], q)
  }

  /** Find keeps each matching task as often as the collection holds it and drops every
      other task. */
  lemma {:induction false} FindCounts(tasks: seq<Task>, q: Query)
    ensures forall t :: multiset(Find(tasks, q))[t] == if MatchesQuery(q, t) then multiset(tasks)[t] else 0
  {
    if tasks != [] {
      assert tasks == [tasks[0]] + tasks[1..];
      FindCounts(tasks[1..], q);
    }
  }

  /** Task.countDocuments(query), evaluated against the same collection as the find. */
  function CountDocuments(tasks: seq<Task>, q: Query): (n: nat)
    ensures n == |Find(tasks, q)|
  {
    if tasks == [] then 0
    else (if MatchesQuery(q, tasks[0]) then 1 else 0) + CountDocuments(tasks[1..], q)
  }

  lemma {:induction false} FindAppend(a: seq<Task>, b: seq<Task>, q: Query)
    ensures Find(a + b, q) == Find(a, q) + Find(b, q)
  {
    if a == [] {
      assert a + b == b;
    } else {
      assert (a + b)[0] == a[0];
      assert (a + b)[1..] == a[1..] + b;
      FindAppend(a[1..], b, q);
    }
  }

  // ---------------------------------------------------------------------------
  // Sorting newest first
  // ---------------------------------------------------------------------------

  predicate NewestFirst(s: seq<Task>) {
    forall i, j :: 0 <= i < j < |s| ==> s[i].createdAt >= s[j].createdAt
  }

  /** Every task of a sequence holding the tail of `s` and one task older than its head is
      no newer than that head. */
  lemma HeadIsNewest(t: Task, s: seq<Task>, rest: seq<Task>)
    requires NewestFirst(s) && s != [] && t.createdAt < s[0].createdAt
    requires multiset(rest) == multiset(s[1..]) + multiset{t}
    ensures forall j :: 0 <= j < |rest| ==> s[0].createdAt >= rest[j].createdAt
  {
    forall j | 0 <= j < |rest| ensures s[0].createdAt >= rest[j].createdAt {
      assert rest[j] in multiset(rest);
      if rest[j] != t {
        assert rest[j] in multiset(s[1..]);
        var k :| 0 <= k < |s[1..]| && s[1..][k] == rest[j];
        assert s[k + 1] == rest[j];
      }
    }
  }

  function InsertNewestFirst(t: Task, s: seq<Task>): (r: seq<Task>)
    requires NewestFirst(s)
    ensures NewestFirst(r) && multiset(r) == multiset(s) + multiset{t}
  {
    if s == [] || t.createdAt >= s[0].createdAt then [t] + s
    else
      assert s == [s[0]] + s[1..];
      var rest := InsertNewestFirst(t, s[1..]);
      HeadIsNewest(t, s, rest);
      [s[0]] + rest
  }

  /** `.sort({ createdAt: -1 })`: the same tasks, newest first. The order among tasks with
      equal createdAt is this model's choice (insertion order); the database promises no
      such order, so results that rest on it are stated for distinct timestamps, where
      NewestFirstUnique makes every newest-first order the same. */
  function SortNewestFirst(s: seq<Task>): (r: seq<Task>)
    ensures NewestFirst(r) && multiset(r) == multiset(s)
  {
    if s == [] then []
    else
      assert s == [s[0]] + s[1..];
      InsertNewestFirst(s[0], SortNewestFirst(s[1..]))
  }
  /** No two different tasks of `s` were created at the same time. */
  predicate DistinctCreatedAt(s: seq<Task>) {
    forall t, u :: t in s && u in s && t.createdAt == u.createdAt ==> t == u
  }

  /** With distinct timestamps there is only one newest-first order of a set of tasks, so
      any sort on createdAt agrees with SortNewestFirst. */
  lemma {:induction false} NewestFirstUnique(a: seq<Task>, b: seq<Task>)
    requires NewestFirst(a) && NewestFirst(b) && multiset(a) == multiset(b)
    requires DistinctCreatedAt(a)
    ensures a == b
  {
    assert |a| == |multiset(a)| == |multiset(b)| == |b|;
    if a != [] {
      SameHead(a, b);
      Tail(a);
      Tail(b);
      NewestFirstUnique(a[1..], b[1..]);
    }
  }

  /** The newest task heads every newest-first order of the same tasks. */
  lemma SameHead(a: seq<Task>, b: seq<Task>)
    requires NewestFirst(a) && NewestFirst(b) && multiset(a) == multiset(b)
    requires DistinctCreatedAt(a) && a != [] && b != []
    ensures a[0] == b[0] && multiset(a[1..]) == multiset(b[1..])
  {
    assert a[0] in multiset(b) && b[0] in multiset(a);
    var k :| 0 <= k < |b| && b[k] == a[0];
    var m :| 0 <= m < |a| && a[m] == b[0];
    assert b[0].createdAt >= b[k].createdAt && a[0].createdAt >= a[m].createdAt;
    assert a[0] in a && b[0] in a;
    DropHead(a);
    DropHead(b);
  }

  lemma DropHead(a: seq<Task>)
    requires a != []
    ensures multiset(a[1..]) == multiset(a) - multiset{a[0]}
  {
    assert a == [a[0]] + a[1..];
    assert multiset(a) == multiset{a[0]} + multiset(a[1..]);
  }

  lemma Tail(a: seq<Task>)
    requires a != []
    ensures NewestFirst(a) ==> NewestFirst(a[1..])
    ensures DistinctCreatedAt(a) ==> DistinctCreatedAt(a[1..])
  {
    forall t | t in a[1..] ensures t in a {
      var i :| 0 <= i < |a[1..]| && a[1..][i] == t;
      assert a[i + 1] == t;
    }
  }



  // ---------------------------------------------------------------------------
  // Pages
  // ---------------------------------------------------------------------------

  /** Math.ceil(total / limit): the fewest pages of `limit` tasks that hold `total` tasks. */
  function PageCount(total: nat, limit: nat): (pages: nat)
    requires limit >= 1
    ensures total <= pages * limit
    ensures pages > 0 ==> (pages - 1) * limit < total
  {
    var q := total / limit;
    var r := total % limit;
    assert total == q * limit + r;
    if r == 0 then q
    else
      assert (q + 1) * limit == q * limit + limit;
      q + 1
  }

  function Skip(page: nat, limit: nat): nat
    requires page >= 1
  {
    (page - 1) * limit
  }

  lemma SkipStep(page: nat, limit: nat)
    requires page >= 1
    ensures Skip(page, limit) + limit == page * limit
  {
  }

  lemma MulMonotone(a: nat, b: nat, c: nat)
    requires a <= b
    ensures a * c <= b * c
  {
  }

  /** `.skip((page - 1) * limit).limit(limit)` applied to `s`. */
  function PageSlice(s: seq<Task>, page: nat, limit: nat): (r: seq<Task>)
    requires page >= 1 && limit >= 1
    ensures |r| == Min(limit, Max(0, |s| - Skip(page, limit)))
  {
    s[Min(Skip(page, limit), |s|)..Min(Skip(page, limit) + limit, |s|)]
  }

  lemma SliceMembers(s: seq<Task>, page: nat, limit: nat)
    requires page >= 1 && limit >= 1
    ensures forall t :: t in PageSlice(s, page, limit) ==> t in s
  {
    var i, j := Min(Skip(page, limit), |s|), Min(Skip(page, limit) + limit, |s|);
    forall t | t in s[i..j] ensures t in s {
      var k :| 0 <= k < |s[i..j]| && s[i..j][k] == t;
      assert s[i + k] == t;
    }
  }

  lemma SameMembers(a: seq<Task>, b: seq<Task>)
    requires multiset(a) == multiset(b)
    ensures forall t :: t in b ==> t in a
  {
    forall t | t in b ensures t in a {
      assert t in multiset(b);
    }
  }

  /** A window of a newest-first sequence is newest first. */
  lemma SliceNewestFirst(s: seq<Task>, page: nat, limit: nat)
    requires page >= 1 && limit >= 1 && NewestFirst(s)
    ensures NewestFirst(PageSlice(s, page, limit))
  {
    var i, j := Min(Skip(page, limit), |s|), Min(Skip(page, limit) + limit, |s|);
    var w := s[i..j];
    forall a, b | 0 <= a < b < |w| ensures w[a].createdAt >= w[b].createdAt {
      assert w[a] == s[i + a] && w[b] == s[i + b];
    }
  }

  /** The requested page of the matches once sorted: only matches, newest first, and as
      many as remain after the skipped pages, up to `limit`. */
  function SortedPage(found: seq<Task>, page: nat, limit: nat): (r: seq<Task>)
    requires page >= 1 && limit >= 1
    ensures forall t :: t in r ==> t in found
    ensures NewestFirst(r)
    ensures |r| == Min(limit, Max(0, |found| - Skip(page, limit)))
  {
    var matches := SortNewestFirst(found);
    assert |matches| == |multiset(matches)| == |multiset(found)| == |found|;
    SliceMembers(matches, page, limit);
    SameMembers(found, matches);
    SliceNewestFirst(matches, page, limit);
    PageSlice(matches, page, limit)
  }

  datatype Pagination = Pagination(page: int, limit: int, total: nat, pages: nat)

  /** The body of a successful GET. */
  datatype Listing = Listing(tasks: seq<Task>, pagination: Pagination)

  /** GET against one snapshot `all` of the collection: the matches sorted newest first,
      the requested page of them, their number and the number of pages. */
  function ListTasks(all: seq<Task>, q: Query, page: nat, limit: nat): (r: Listing)
    requires page >= 1 && limit >= 1
    ensures forall t :: t in r.tasks ==> t in all && MatchesQuery(q, t)
    ensures NewestFirst(r.tasks)
    ensures r.pagination == Pagination(page, limit, |Find(all, q)|, PageCount(|Find(all, q)|, limit))
    ensures |r.tasks| == Min(limit, Max(0, r.pagination.total - Skip(page, limit)))
  {
    var total := CountDocuments(all, q);
    Listing(SortedPage(Find(all, q), page, limit), Pagination(page, limit, total, PageCount(total, limit)))
  }

  // ---------------------------------------------------------------------------
  // What a listing promises
  // ---------------------------------------------------------------------------

  /** Pages 1 to k of `s` cut into windows of `limit`, one after the other. */
  function PagesUpTo(s: seq<Task>, limit: nat, k: nat): seq<Task>
    requires limit >= 1
  {
    if k == 0 then [] else PagesUpTo(s, limit, k - 1) + PageSlice(s, k, limit)
  }

  /** Page `page` of a listing is the skip/limit window over the sorted matches; the
      lemmas below use it to reason about pages without unfolding ListTasks. */
  lemma ListIsWindow(all: seq<Task>, q: Query, page: nat, limit: nat)
    requires page >= 1 && limit >= 1
    ensures ListTasks(all, q, page, limit).tasks == PageSlice(SortNewestFirst(Find(all, q)), page, limit)
  {
  }

  lemma SliceJoin(s: seq<Task>, a: nat, b: nat)
    requires a <= b <= |s|
    ensures s[..a] + s[a..b] == s[..b]
  {
  }

  lemma {:induction false} PagesUpToPrefix(s: seq<Task>, limit: nat, k: nat)
    requires limit >= 1
    ensures PagesUpTo(s, limit, k) == s[..Min(k * limit, |s|)]
  {
    if k > 0 {
      PagesUpToPrefix(s, limit, k - 1);
      SkipStep(k, limit);
      assert Skip(k, limit) == (k - 1) * limit;
      SliceJoin(s, Min(Skip(k, limit), |s|), Min(k * limit, |s|));
    }
  }

  /** The pages partition the matches: pages 1 to `pages` of the listing, read in order,
      are exactly the matching tasks newest first, so each match of the collection is on
      exactly one page and on no page more often than the collection holds it. */
  lemma PagesPartitionMatches(all: seq<Task>, q: Query, limit: nat)
    requires limit >= 1
    requires DistinctCreatedAt(Find(all, q))
    ensures var sorted := SortNewestFirst(Find(all, q));
      && (forall other :: NewestFirst(other) && multiset(other) == multiset(Find(all, q)) ==> other == sorted)
      && (forall page :: page >= 1 ==> ListTasks(all, q, page, limit).tasks == PageSlice(sorted, page, limit))
      && var pages := ListTasks(all, q, 1, limit).pagination.pages;
      && PagesUpTo(sorted, limit, pages) == sorted
      && forall t :: multiset(PagesUpTo(sorted, limit, pages))[t]
                       == if MatchesQuery(q, t) then multiset(all)[t] else 0
  {
    var sorted := SortNewestFirst(Find(all, q));
    var pages := ListTasks(all, q, 1, limit).pagination.pages;
    forall page | page >= 1 ensures ListTasks(all, q, page, limit).tasks == PageSlice(sorted, page, limit) {
      ListIsWindow(all, q, page, limit);
    }
    PagesUpToPrefix(sorted, limit, pages);
    assert sorted[..|sorted|] == sorted;
    FindCounts(all, q);
    OneNewestFirstOrder(Find(all, q));
  }

  /** With distinct timestamps, every newest-first arrangement of `found` is the sorted one. */
  lemma OneNewestFirstOrder(found: seq<Task>)
    requires DistinctCreatedAt(found)
    ensures forall other :: (NewestFirst(other) && multiset(other) == multiset(found))
                              ==> other == SortNewestFirst(found)
  {
    var sorted := SortNewestFirst(found);
    SameMembers(found, sorted);
    assert DistinctCreatedAt(sorted);
    forall other | NewestFirst(other) && multiset(other) == multiset(found)
      ensures other == sorted
    {
      NewestFirstUnique(sorted, other);
    }
  }

  /** Every page from 1 to `pages` holds at least one task, and every page before the last
      holds exactly `limit`. */
  lemma PagesInRangeAreFilled(all: seq<Task>, q: Query, page: nat, limit: nat)
    requires 1 <= page && limit >= 1
    requires page <= ListTasks(all, q, page, limit).pagination.pages
    ensures |ListTasks(all, q, page, limit).tasks| > 0
    ensures (page < ListTasks(all, q, page, limit).pagination.pages)
              ==> |ListTasks(all, q, page, limit).tasks| == limit
  {
    var r := ListTasks(all, q, page, limit);
    var pages, total := r.pagination.pages, r.pagination.total;
    MulMonotone(page - 1, pages - 1, limit);
    assert Skip(page, limit) < total;
    if page < pages {
      MulMonotone(page, pages - 1, limit);
      SkipStep(page, limit);
      assert Skip(page, limit) + limit < total;
    }
  }

  /** A page past the last one is empty. */
  lemma PageBeyondLastIsEmpty(all: seq<Task>, q: Query, page: nat, limit: nat)
    requires 1 <= page && limit >= 1
    requires page > ListTasks(all, q, page, limit).pagination.pages
    ensures ListTasks(all, q, page, limit).tasks == []
  {
    var r := ListTasks(all, q, page, limit);
    MulMonotone(r.pagination.pages, page - 1, limit);
    assert Skip(page, limit) >= r.pagination.total;
  }

  lemma {:induction false} FindNoneOwned(tasks: seq<Task>, q: Query)
    requires forall t :: t in tasks ==> t.userId != q.userId
    ensures Find(tasks, q) == []
  {
    if tasks != [] {
      assert tasks[0] in tasks;
      FindNoneOwned(tasks[1..], q);
    }
  }

  /** Owner isolation: tasks of other owners, wherever they sit in the collection, change
      nothing in what a caller is shown, the totals included. */
  lemma OtherOwnersInvisible(a: seq<Task>, others: seq<Task>, b: seq<Task>, q: Query, page: nat, limit: nat)
    requires 1 <= page && limit >= 1
    requires forall t :: t in others ==> t.userId != q.userId
    ensures ListTasks(a + others + b, q, page, limit) == ListTasks(a + b, q, page, limit)
  {
    FindAppend(a + others, b, q);
    FindAppend(a, others, q);
    FindNoneOwned(others, q);
    FindAppend(a, b, q);
    assert Find(a + others + b, q) == Find(a + b, q);
  }

  /** A matching task newer than every other match is the first task of page 1. */
  lemma NewestComesFirst(all: seq<Task>, q: Query, t: Task, limit: nat)
    requires limit >= 1
    requires t in all && MatchesQuery(q, t)
    requires forall u :: u in all && MatchesQuery(q, u) && u != t ==> u.createdAt < t.createdAt
    ensures |ListTasks(all, q, 1, limit).tasks| > 0 && ListTasks(all, q, 1, limit).tasks[0] == t
  {
    var sorted := SortNewestFirst(Find(all, q));
    ListIsWindow(all, q, 1, limit);
    assert ListTasks(all, q, 1, limit).tasks == sorted[0..Min(limit, |sorted|)];
    FindCounts(all, q);
    assert multiset(all)[t] > 0;
    assert t in multiset(sorted);
    var k :| 0 <= k < |sorted| && sorted[k] == t;
    assert sorted[0] in multiset(Find(all, q));
    assert sorted[0].createdAt >= t.createdAt;
  }

  // ---------------------------------------------------------------------------
  // Create
  // ---------------------------------------------------------------------------

  /** The JSON body of a create request. `userId` stands for an owner a client might put in
      the body; the handler never reads it. */
  datatype Body = Body(title: Option<string>, description: Option<string>, status: Option<string>, userId: Option<string>)

  /** POST up to the call of Task.create: the draft it hands over, or the response it sends
      instead. `session` is the session's user id, `session?.user?.id`: None without a
      session, a user or an id; an empty id is refused like a missing one. `body` is None
      when reading it throws (the body is not JSON, or is JSON null); any other JSON value
      that is not an object destructures to absent fields, Body(None, None, None, None). */
  function PostDraft(session: Option<UserId>, body: Option<Body>): (r: Result<Draft, Response<Task>>)
    ensures r == Err(Failure(401, UnauthorizedMessage)) <==> !Truthy(session)
    ensures r == Err(Failure(400, MissingFieldsMessage)) <==>
      Truthy(session) && body.Some? && !(Truthy(body.value.title) && Truthy(body.value.description))
    ensures r.Ok? <==>
      Truthy(session) && body.Some? && Truthy(body.value.title) && Truthy(body.value.description)
    ensures r.Ok? ==> r.value.userId == session
    ensures r.Ok? ==> r.value.title == body.value.title && r.value.description == body.value.description
    ensures r.Ok? ==> r.value.status == Some(body.value.status.GetOr(DefaultStatus))
  {
    if !Truthy(session) then Err(Failure(401, UnauthorizedMessage))
    else if body.None? then Err(Failure(500, InternalErrorMessage))
    else
      var b := body.value;
      var status := b.status.GetOr(DefaultStatus);
      if !Truthy(b.title) || !Truthy(b.description) then Err(Failure(400, MissingFieldsMessage))
      else Ok(Draft(b.title, b.description, Some(status), session))
  }

  /** The whole of POST against a collection whose next generated id is `id`, at time `now`. */
  function PostResponse(session: Option<UserId>, body: Option<Body>, id: nat, now: nat): (r: Response<Task>)
    ensures r.code == 401 <==> !Truthy(session)
    ensures r.code == 400 <==>
      Truthy(session) && body.Some? && !(Truthy(body.value.title) && Truthy(body.value.description))
    ensures r.Success? <==> PostDraft(session, body).Ok? && Validate(PostDraft(session, body).value).Ok?
    ensures r.Failure? ==> r.code in {400, 401, 500}
    ensures r.Success? ==> && r.code == 201
                           && IsStorable(r.body.Content())
                           && r.body.id == id && r.body.createdAt == now && r.body.updatedAt == now
                           && r.body.userId == session.value
                           && r.body.title == Trim(body.value.title.value)
                           && r.body.description == Trim(body.value.description.value)
                           && StatusName(r.body.status) == body.value.status.GetOr(DefaultStatus)
  {
    match PostDraft(session, body)
    case Err(response) => response
    case Ok(draft) =>
      match Validate(draft)
      case Err(_) => Failure(500, InternalErrorMessage)
      case Ok(fields) => Success(201, NewTask(id, fields, now))
  }

  /** A body that passes the presence check but breaks a schema rule gets 500, not 400. */
  lemma SchemaRejectionIsInternalError(session: Option<UserId>, body: Option<Body>, id: nat, now: nat)
    requires PostDraft(session, body).Ok? && Validate(PostDraft(session, body).value).Err?
    ensures PostResponse(session, body, id, now) == Failure(500, InternalErrorMessage)
  {
  }

  /** A title of spaces passes the presence check (it is a non-empty string) and is then
      rejected by the schema, so the caller sees 500. */
  lemma WhitespaceTitleIsInternalError(uid: UserId, b: Body, id: nat, now: nat)
    requires uid != ""
    requires b.title.Some? && b.title.value != "" && AllWhitespace(b.title.value)
    requires Truthy(b.description)
    ensures PostResponse(Some(uid), Some(b), id, now) == Failure(500, InternalErrorMessage)
  {
    WhitespaceTitleRejected(PostDraft(Some(uid), Some(b)).value);
  }

  /** A status outside the enum passes the presence check and is rejected by the schema. */
  lemma UnknownStatusIsInternalError(uid: UserId, b: Body, id: nat, now: nat)
    requires uid != ""
    requires Truthy(b.title) && Truthy(b.description)
    requires b.status.Some? && b.status.value != "pending" && b.status.value != "done"
    ensures PostResponse(Some(uid), Some(b), id, now) == Failure(500, InternalErrorMessage)
  {
    ValidateRejects(PostDraft(Some(uid), Some(b)).value);
  }

  /** The owner is taken from the session: whatever owner the body names, the outcome is
      the same as for a body naming none. */
  lemma OwnerFromSessionOnly(session: Option<UserId>, b: Body, id: nat, now: nat)
    ensures PostResponse(session, Some(b), id, now) == PostResponse(session, Some(b.(userId := None)), id, now)
  {
  }

  // ---------------------------------------------------------------------------
  // The collection
  // ---------------------------------------------------------------------------

  /** The tasks collection and the id generator Task.create draws from. */
  class TaskStore {
    var tasks: seq<Task>
    var nextId: nat

    /** Every stored task passed the schema, and ids are distinct and below `nextId`. */
    ghost predicate Valid()
      reads this
    {
      && (forall i :: 0 <= i < |tasks| ==> IsStorable(tasks[i].Content()) && tasks[i].id < nextId)
      && (forall i, j :: 0 <= i < j < |tasks| ==> tasks[i].id != tasks[j].id)
    }

    constructor ()
      ensures Valid() && tasks == [] && nextId == 0
    {
      tasks := [];
      nextId := 0;
    }

    /** GET /api/tasks for the session's user and query string `ps`; the collection is
        read, never written. */
    method List(session: Option<UserId>, ps: Params) returns (resp: Response<Listing>)
      requires Truthy(session) ==> ListRequestOk(ps)
      ensures !Truthy(session) ==> resp == Failure(401, UnauthorizedMessage)
      ensures Truthy(session) && SearchRefused(ps) ==> resp == Failure(500, InternalErrorMessage)
      ensures Truthy(session) && !SearchRefused(ps) ==>
        resp == Success(200, ListTasks(tasks, QueryFor(session.value, ps), PageParam(ps).value, LimitParam(ps).value))
    {
      if !Truthy(session) {
        return Failure(401, UnauthorizedMessage);
      }
      if SearchRefused(ps) {
        return Failure(500, InternalErrorMessage);
      }
      var page := PageParam(ps).value;
      var limit := LimitParam(ps).value;
      var query := BuildQuery(session.value, ps);
      var found := Find(tasks, query);
      var total := CountDocuments(tasks, query);
      var window := PageSlice(SortNewestFirst(found), page, limit);
      resp := Success(200, Listing(window, Pagination(page, limit, total, PageCount(total, limit))));
    }

    /** POST /api/tasks at time `now`: on 201 exactly one validated task owned by the
        session's user is appended; on every error the collection is left as it was. */
    method Create(session: Option<UserId>, body: Option<Body>, now: nat) returns (resp: Response<Task>)
      requires Valid()
      modifies this
      ensures Valid()
      ensures resp == PostResponse(session, body, old(nextId), now)
      ensures resp.Success? ==> tasks == old(tasks) + [resp.body] && nextId == old(nextId) + 1
      ensures resp.Failure? ==> tasks == old(tasks) && nextId == old(nextId)
    {
      if !Truthy(session) {
        return Failure(401, UnauthorizedMessage);
      }
      if body.None? {
        return Failure(500, InternalErrorMessage);
      }
      var b := body.value;
      var status := b.status.GetOr(DefaultStatus);
      if !Truthy(b.title) || !Truthy(b.description) {
        return Failure(400, MissingFieldsMessage);
      }
      var draft := Draft(b.title, b.description, Some(status), session);
      match Validate(draft) {
        case Err(_) =>
          resp := Failure(500, InternalErrorMessage);
        case Ok(fields) =>
          var task := NewTask(nextId, fields, now);
          tasks := tasks + [task];
          nextId := nextId + 1;
          resp := Success(201, task);
      }
    }
  }

  /** A task created by one user never shows up in another user's listing. */
  lemma CreatedTaskInvisibleToOthers(before: seq<Task>, created: Task, q: Query, page: nat, limit: nat)
    requires 1 <= page && limit >= 1
    requires created.userId != q.userId
    ensures ListTasks(before + [created], q, page, limit) == ListTasks(before, q, page, limit)
  {
    OtherOwnersInvisible(before, [created], [], q, page, limit);
    assert before + [created] + [] == before + [created];
    assert before + [] == before;
  }
}
