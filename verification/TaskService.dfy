/**
  The service methods of internal/services/task_service.go as imperative code over the two
  repositories.  Each is proved to do what its phases do with nothing in between, so the
  interleaving theorems about those phases speak about this code.
*/
module TaskService {
  import opened Prelude
  import opened AppErrors
  import opened Tasks
  import opened TaskDb
  import opened IdempotencyStore
  import opened Planning
  import opened Audit
  import opened Engine
  import opened Solo
  import Paging
  import Validations

  // ---- listing -------------------------------------------------------------------------

  datatype Listing =
    | Listed(items: seq<Response>, count: int, limit: int, page: int, totalPages: int)
    | ListFailed(err: Error)

  function ComposeAll(tasks: seq<Task>): (r: seq<Response>)
    ensures |r| == |tasks| && forall i :: 0 <= i < |r| ==> r[i] == Compose(tasks[i])
  {
    if tasks == [] then [] else [Compose(tasks[0])] + ComposeAll(tasks[1..])
  }

  /** The filter a caller's query turns into: the caller's own team, trimmed texts. */
  function FilterFor(caller: AuthUser, q: Validations.ListQuery): TaskFilter {
    TaskFilter(Some(caller.teamId), q.creator, q.assignee, Trim(q.status), Trim(q.title), q.orderBy,
               Paging.Offset(q.page, q.limit), q.limit)
  }

  /** All tasks a query is about, in the order it asks for. */
  function FoundBy(rows: map<Id, Row>, sorted: SortColumn -> seq<Id>, caller: AuthUser,
                   q: Validations.ListQuery, like: (string, string) -> bool): seq<Task>
    requires forall id :: id in sorted(OrderClause(q.orderBy)) ==> id in rows
  {
    Matching(rows, sorted(OrderClause(q.orderBy)), FilterFor(caller, q), like)
  }

  /** The page a query asks for, with its metadata. */
  function PageOf(found: seq<Task>, q: Validations.ListQuery): Listing {
    Listed(ComposeAll(Paging.Page(found, q.page, q.limit)), |found|, q.limit, q.page,
           Paging.TotalPages(|found|, q.limit))
  }

  /** The task is of the caller's team and satisfies each filter that the query gives. */
  predicate Wanted(t: Task, caller: AuthUser, q: Validations.ListQuery, like: (string, string) -> bool) {
    && t.team == caller.teamId
    && (q.creator.Some? ==> t.creator == q.creator.value)
    && (q.assignee.Some? ==> t.assignee == q.assignee)
    && (Trim(q.status) != "" ==> t.status == Trim(q.status))
    && (Trim(q.title) != "" ==> like(t.title, "%" + Trim(q.title) + "%"))
  }

  /** The filter built for a query, before or after its normalisation, selects what the query asks for. */
  lemma FilterIsWanted(caller: AuthUser, q: Validations.ListQuery, like: (string, string) -> bool, t: Task)
    ensures Selected(FilterFor(caller, q), like, t) <==> Wanted(t, caller, q, like)
    ensures Wanted(t, caller, Validations.Normalized(q), like) <==> Wanted(t, caller, q, like)
  {
    TrimIsProjection(q.status);
    TrimIsProjection(q.title);
  }

  /**
    What one page shows: the metadata of the whole list, and at place i of the page the element
    at place (page - 1) * limit + i of the list, field by field.
  */
  lemma PageShows(found: seq<Task>, q: Validations.ListQuery)
    requires 1 <= q.limit <= 100 && 1 <= q.page <= Paging.MAX64 && (q.page - 1) * q.limit <= Paging.MAX64
    requires |found| + q.limit - 1 <= Paging.MAX64
    ensures var listing, lo := PageOf(found, q), (q.page - 1) * q.limit;
            && listing.Listed? && lo >= 0
            && listing.count == |found| && listing.limit == q.limit && listing.page == q.page
            && Paging.IsCeiling(listing.totalPages, |found|, q.limit)
            && |listing.items|
               == (if lo >= |found| then 0 else if lo + q.limit > |found| then |found| - lo else q.limit)
            && forall i :: 0 <= i < |listing.items| ==>
                 var t := found[lo + i];
                 listing.items[i]
                 == Response(t.id, t.title, t.description, t.status, t.creator, t.assignee, t.team, t.version)
  {
    Paging.PageIs(found, q.page, q.limit);
    Paging.TotalPagesIsCeiling(|found|, q.limit);
  }

  /** The order of the list: by the column the query names, newest first when it names none. */
  lemma ListIsSorted(db: Db, sorted: SortColumn -> seq<Id>, caller: AuthUser, q: Validations.ListQuery,
                     like: (string, string) -> bool, i: nat, j: nat, a: nat, b: nat)
    requires Consistent(db) && IsListing(db.rows, sorted(OrderClause(q.orderBy)))
    requires var found := FoundBy(db.rows, sorted, caller, q, like);
             var order := sorted(match q.orderBy
                                 case "earliest" => CreatedAsc
                                 case "lastUpdated" => UpdatedDesc
                                 case "title-asc" => TitleAsc
                                 case "title-desc" => TitleDesc
                                 case _ => CreatedDesc);
             i < j && ListedAt(found, order, i, a) && ListedAt(found, order, j, b)
    ensures a < b
  {
    OrderClauseExactly(q.orderBy);
    forall id | id in db.rows ensures db.rows[id].task.id == id {
      assert ExplainedIn(db, id);
    }
    MatchingInOrder(db.rows, sorted(OrderClause(q.orderBy)), FilterFor(caller, q), like, i, j, a, b);
  }

  /**
    The pages of a validated query, one after another, are exactly the caller's team's live
    tasks that satisfy its filters, each once; the count is their number; and a page is
    non-empty if and only if it is one of the TotalPages, exactly as long as its offset does
    not overflow into the list.
  */
  lemma PagesShowTheTeamsTasks(db: Db, sorted: SortColumn -> seq<Id>, caller: AuthUser,
                               raw: Validations.ListQuery, like: (string, string) -> bool)
    requires Consistent(db) && IsListing(db.rows, sorted(OrderClause(raw.orderBy)))
    requires |FoundBy(db.rows, sorted, caller, Validations.Normalized(raw), like)| <= Paging.MAX64 - 99
    ensures var q := Validations.Normalized(raw);
            var found := FoundBy(db.rows, sorted, caller, q, like);
            var n := Paging.TotalPages(|found|, q.limit);
            && n >= 0 && Paging.Pages(found, n, q.limit) == found && NoDuplicates(found)
            && (forall t :: t in found <==> Alive(db, t.id) == Some(t) && Wanted(t, caller, raw, like))
            && (forall page :: 1 <= page <= Paging.MAX64 ==>
                  ((Paging.Page(found, page, q.limit) != [] <==> page <= n)
                   <==> found == [] || (page - 1) * q.limit <= Paging.MAX64 || Paging.Offset(page, q.limit) >= |found|))
  {
    var q := Validations.Normalized(raw);
    var found := FoundBy(db.rows, sorted, caller, q, like);
    Validations.NormalisingTwice(raw);
    forall id | id in db.rows ensures db.rows[id].task.id == id {
      assert ExplainedIn(db, id);
    }
    MatchingIsExact(db.rows, sorted(OrderClause(q.orderBy)), FilterFor(caller, q), like);
    forall t ensures t in found <==> Alive(db, t.id) == Some(t) && Wanted(t, caller, raw, like) {
      FilterIsWanted(caller, q, like, t);
      FilterIsWanted(caller, raw, like, t);
    }
    Paging.PagesPartition(found, q.limit);
    forall page | 1 <= page <= Paging.MAX64
      ensures (Paging.Page(found, page, q.limit) != [] <==> page <= Paging.TotalPages(|found|, q.limit))
              <==> found == [] || (page - 1) * q.limit <= Paging.MAX64 || Paging.Offset(page, q.limit) >= |found|
    {
      Paging.PageNonEmptyExactly(found, page, q.limit);
    }
  }

  // ---- the service -----------------------------------------------------------------------

  class Service {
    const repo: TaskRepository
    const idem: IdempotencyRepository

    constructor (repo: TaskRepository, idem: IdempotencyRepository)
      ensures this.repo == repo && this.idem == idem
    {
      this.repo, this.idem := repo, idem;
    }

    /** The shared first half of the edits: authenticate, read, check team and version. */
    method LoadForEdit(caller: Option<AuthUser>, call: Call, fault: bool) returns (loading: Loading)
      ensures loading == Load(repo.Value(), caller, call, fault)
    {
      if !Authenticated(caller) {
        return Refused(ServiceWrap(App(UNAUTHORIZED)));
      }
      var task, err := repo.FindTaskByID(call.id, fault);
      if err.Some? {
        return Refused(ServiceWrap(Annotated(FindingTask, DB_ERROR)));
      }
      if task.None? || task.value.team != caller.value.teamId {
        return Refused(App(TASK_NOT_FOUND));
      }
      if Named(call).Some? && task.value.version != Named(call).value {
        return Refused(App(STALE_VERSION));
      }
      return Snapshot(task.value);
    }

    method CheckUser(team: Id, wanted: Option<Id>, fault: bool) returns (objection: Option<Error>)
      ensures objection == CheckAssignee(repo.Value(), team, wanted, fault)
    {
      if wanted.Some? {
        var found, err := repo.FindUserByID(wanted.value, fault);
        if err.Some? {
          return Some(ServiceWrap(Annotated(CheckingAssignee, DB_ERROR)));
        }
        if found.None? || found.value != team {
          return Some(App(ASSIGNEE_NOT_IN_TEAM));
        }
      }
      return None;
    }

    method UpdateTask(caller: Option<AuthUser>, id: Id, req: UpdateRequest, faults: EditFaults) returns (reply: Reply)
      modifies repo
      ensures (repo.Value(), reply) == Serial(old(repo.Value()), caller, Update(id, req), faults)
    {
      ghost var call := Update(id, req);
      var loading := LoadForEdit(caller, Update(id, req), faults.load);
      if loading.Refused? {
        return Fail(loading.err);
      }
      var objection := CheckUser(caller.value.teamId, req.assignee, faults.prepare);
      if objection.Some? {
        return Fail(objection.value);
      }
      var task := new LoadedTask(loading.task);
      var log := task.ApplyUpdate(req, caller.value);
      ghost var plan := Plan(task.Value(), log);
      assert Prepare(old(repo.Value()), caller.value, call, loading.task, faults.prepare) == Planned(plan);
      var err := repo.UpdateTaskWithLog(task.Value(), req.version, log, faults.write);
      if err.Some? {
        return Fail(ServiceWrap(Annotated(UpdatingTask, err.value)));
      }
      return Ok(Compose(task.Value()));
    }

    method AssignTask(caller: Option<AuthUser>, id: Id, req: AssignRequest, faults: EditFaults) returns (reply: Reply)
      modifies repo
      ensures (repo.Value(), reply) == Serial(old(repo.Value()), caller, Assign(id, req), faults)
    {
      ghost var call := Assign(id, req);
      var loading := LoadForEdit(caller, Assign(id, req), faults.load);
      if loading.Refused? {
        return Fail(loading.err);
      }
      var objection := CheckUser(caller.value.teamId, Some(req.assignee), faults.prepare);
      if objection.Some? {
        return Fail(objection.value);
      }
      var task := new LoadedTask(loading.task);
      var log := task.ApplyAssignment(req, caller.value);
      ghost var plan := Plan(task.Value(), log);
      assert Prepare(old(repo.Value()), caller.value, call, loading.task, faults.prepare) == Planned(plan);
      var err := repo.AssignTaskWithLog(task.Value(), req.version, log, faults.write);
      if err.Some? {
        return Fail(ServiceWrap(Annotated(AssigningTask, err.value)));
      }
      return Ok(Compose(task.Value()));
    }

    method DeleteTask(caller: Option<AuthUser>, id: Id, faults: EditFaults) returns (reply: Reply)
      modifies repo
      ensures (repo.Value(), reply) == Serial(old(repo.Value()), caller, Delete(id), faults)
    {
      var loading := LoadForEdit(caller, Delete(id), faults.load);
      if loading.Refused? {
        return Fail(loading.err);
      }
      var task := loading.task;
      var log := TaskLog(task.id, DELETE, caller.value.userId, task.assignee, None, Some(task.status), None);
      assert Prepare(old(repo.Value()), caller.value, Delete(id), task, faults.prepare) == Planned(Plan(task, log));
      var err := repo.DeleteTaskWithLog(task.id, log, faults.write);
      if err.Some? {
        return Fail(ServiceWrap(Annotated(DeletingTask, err.value)));
      }
      return Removed;
    }

    /**
      The wait of a request that lost the race for the lock: one wake-up after another until
      the cached response shows, the caller gives up, or the five seconds are over.  None
      means that it is still waiting after the given wake-ups.
    */
    method AwaitReply(p: CreateProc, wakes: seq<Wake>) returns (reply: Option<Reply>)
      requires p.pc.Polling?
      ensures SoloCreate(repo.Value(), idem.Value(), p, Waits(wakes))
           == Moved(repo.Value(), idem.Value(), if reply.Some? then Replied(reply.value) else Polling)
    {
      ghost var db, redis := repo.Value(), idem.Value();
      var i := 0;
      while i < |wakes|
        invariant 0 <= i <= |wakes|
        invariant SoloCreate(db, redis, p, Waits(wakes)) == SoloCreate(db, redis, p, Waits(wakes[i..]))
      {
        ghost var rest := Waits(wakes[i + 1..]);
        assert wakes[i..][1..] == wakes[i + 1..];
        assert Waits(wakes[i..]) == [Wait(wakes[i])] + rest;
        SoloFirst(db, redis, p, Wait(wakes[i]), rest);
        if wakes[i].Cancelled? {
          RepliedStops(db, redis, p.(pc := Replied(Fail(CANCELLED))), rest);
          return Some(Fail(CANCELLED));
        }
        if wakes[i].TimedOut? {
          RepliedStops(db, redis, p.(pc := Replied(Fail(TIMED_OUT))), rest);
          return Some(Fail(TIMED_OUT));
        }
        var cached := idem.GetIdempotencyResponse(p.key, wakes[i].fault);
        if cached.Hit? {
          RepliedStops(db, redis, p.(pc := Replied(Ok(cached.resp))), rest);
          return Some(Ok(cached.resp));
        }
        assert p.(pc := Polling) == p;
        i := i + 1;
      }
      return None;
    }

    /** From the acquired lock to the deferred release. */
    method CreateHoldingLock(p: CreateProc, env: CreateEnv) returns (reply: Reply)
      requires p.pc.Locked?
      modifies repo, idem
      ensures SoloCreate(old(repo.Value()), old(idem.Value()), p, Held(env))
           == Moved(repo.Value(), idem.Value(), Releasing(reply))
    {
      HeldPath(repo.Value(), idem.Value(), p, env);
      var cached := idem.GetIdempotencyResponse(p.key, env.secondLookup);
      if cached.Hit? {
        return Ok(cached.resp);
      }
      if !Authenticated(p.caller) {
        return Fail(ServiceWrap(App(UNAUTHORIZED)));
      }
      var objection := CheckUser(p.caller.value.teamId, p.req.assignee, env.check);
      if objection.Some? {
        return Fail(objection.value);
      }
      var status := Trim(p.req.status);
      if status == "" {
        status := TODO;
      }
      var task := Task(env.id, Trim(p.req.title), Trim(p.req.description), status,
                       p.caller.value.userId, p.req.assignee, p.caller.value.teamId, 1);
      var log := TaskLog(task.id, CREATE, p.caller.value.userId, None, p.req.assignee, None, Some(status));
      var err := repo.CreateTaskWithLog(task, log, env.tx);
      if err.Some? {
        return Fail(ServiceWrap(Annotated(CreatingTask, err.value)));
      }
      var resp := Compose(task);
      err := idem.SaveIdempotencyResponse(p.key, resp, env.save);
      if err.Some? {
        return Fail(ServiceWrap(Annotated(SavingReply, err.value)));
      }
      return Ok(resp);
    }

    /** None means that the request is still waiting for a concurrent creation. */
    method CreateTask(caller: Option<AuthUser>, header: Header, req: CreateRequest, env: CreateEnv)
      returns (reply: Option<Reply>)
      modifies repo, idem
      ensures !header.Parsed? || header.key == NIL ==>
                reply == Some(Fail(App(INVALID_IDEMPOTENCY_KEY)))
                && repo.Value() == old(repo.Value()) && idem.Value() == old(idem.Value())
      ensures header.Parsed? && header.key != NIL ==>
                SoloCreate(old(repo.Value()), old(idem.Value()), CreateProc(caller, header.key, req, Start),
                           Program(env))
                == Moved(repo.Value(), idem.Value(), if reply.Some? then Replied(reply.value) else Polling)
    {
      if !header.Parsed? || header.key == NIL {
        return Some(Fail(App(INVALID_IDEMPOTENCY_KEY)));
      }
      var key := header.key;
      ghost var db, redis := repo.Value(), idem.Value();
      ghost var p := CreateProc(caller, key, req, Start);
      ghost var afterLock := Waits(env.wakes) + Tail(env);
      ghost var afterLookup := [TryLock(env.lock)] + afterLock;
      assert Program(env) == [FirstLookup(env.firstLookup)] + afterLookup;
      SoloFirst(db, redis, p, FirstLookup(env.firstLookup), afterLookup);

      var cached := idem.GetIdempotencyResponse(key, env.firstLookup);
      if cached.LookupError? {
        reply := Some(Fail(Annotated(CheckingCache, REDIS_ERROR)));
        RepliedStops(db, redis, p.(pc := Replied(reply.value)), afterLookup);
        return;
      }
      if cached.Hit? {
        reply := Some(Ok(cached.resp));
        RepliedStops(db, redis, p.(pc := Replied(reply.value)), afterLookup);
        return;
      }

      SoloFirst(db, redis, p.(pc := WantLock), TryLock(env.lock), afterLock);
      var acquired := idem.AcquireIdempotencyLock(key, env.lock);
      ghost var redis1 := idem.Value();
      if acquired.AcquireError? {
        reply := Some(Fail(Annotated(AcquiringLock, REDIS_ERROR)));
        RepliedStops(db, redis1, p.(pc := Replied(reply.value)), afterLock);
        return;
      }

      if acquired.Taken? {
        reply := WaitForOther(CreateProc(caller, key, req, Polling), env);
        return;
      }
      var result := CreateAndRelease(CreateProc(caller, key, req, Locked), env);
      return Some(result);
    }

    /** The loser of the lock: it only waits. */
    method WaitForOther(p: CreateProc, env: CreateEnv) returns (reply: Option<Reply>)
      requires p.pc.Polling?
      ensures SoloCreate(repo.Value(), idem.Value(), p, Waits(env.wakes) + Tail(env))
           == Moved(repo.Value(), idem.Value(), if reply.Some? then Replied(reply.value) else Polling)
    {
      reply := AwaitReply(p, env.wakes);
      ghost var db, redis := repo.Value(), idem.Value();
      SoloConcat(db, redis, p, Waits(env.wakes), Tail(env));
      if reply.Some? {
        RepliedStops(db, redis, p.(pc := Replied(reply.value)), Tail(env));
      } else {
        PollingPassesBy(db, redis, p.(pc := Polling), env);
      }
    }

    /** The winner of the lock: create, and release on every path. */
    method CreateAndRelease(p: CreateProc, env: CreateEnv) returns (reply: Reply)
      requires p.pc.Locked?
      modifies repo, idem
      ensures SoloCreate(old(repo.Value()), old(idem.Value()), p, Waits(env.wakes) + Tail(env))
           == Moved(repo.Value(), idem.Value(), Replied(reply))
    {
      WaitsPassBy(repo.Value(), idem.Value(), p, env.wakes, Tail(env));
      SoloConcat(repo.Value(), idem.Value(), p, Held(env), [ReleaseLock(env.release)]);
      reply := CreateHoldingLock(p, env);
      SoloFirst(repo.Value(), idem.Value(), p.(pc := Releasing(reply)), ReleaseLock(env.release), []);
      assert [ReleaseLock(env.release)] + [] == [ReleaseLock(env.release)];
      idem.ReleaseIdempotencyLock(p.key, env.release);
    }

    method CountPages(total: int, limit: int) returns (totalPages: int)
      ensures totalPages == Paging.TotalPages(total, limit)
    {
      totalPages := 0;
      if total > 0 && limit > 0 {
        totalPages := Paging.TruncatedQuotient(Paging.Wrap64(Paging.Wrap64(total + limit) - 1), limit);
      }
    }

    method ComposeItems(tasks: seq<Task>) returns (items: seq<Response>)
      ensures items == ComposeAll(tasks)
    {
      items := [];
      for i := 0 to |tasks|
        invariant |items| == i
        invariant forall j :: 0 <= j < i ==> items[j] == Compose(tasks[j])
      {
        items := items + [Compose(tasks[i])];
      }
    }

    /**
      One page of the caller's team.  The offset and the page count are machine integers;
      the items are composed one by one.
    */
    method ListTasks(caller: Option<AuthUser>, query: Validations.ListTasksQuery,
                     like: (string, string) -> bool, sorted: SortColumn -> seq<Id>,
                     countFault: bool, findFault: bool)
      returns (listing: Listing)
      requires IsListing(repo.rows, sorted(OrderClause(query.orderBy)))
      ensures var q := query.Value();
              if !Authenticated(caller) then listing == ListFailed(ServiceWrap(App(UNAUTHORIZED)))
              else if q.team.Some? && q.team.value != caller.value.teamId
              then listing == ListFailed(App(TASK_NOT_FOUND))
              else if countFault || findFault then listing == ListFailed(ServiceWrap(Annotated(ListingTasks, DB_ERROR)))
              else
                listing == PageOf(FoundBy(repo.rows, sorted, caller.value, q, like), q)
    {
      if !Authenticated(caller) {
        return ListFailed(ServiceWrap(App(UNAUTHORIZED)));
      }
      var offset := Paging.Wrap64(Paging.Wrap64(query.page - 1) * query.limit);
      if query.team.Some? && query.team.value != caller.value.teamId {
        return ListFailed(App(TASK_NOT_FOUND));
      }
      var filter := TaskFilter(Some(caller.value.teamId), query.creator, query.assignee, Trim(query.status),
                               Trim(query.title), query.orderBy, offset, query.limit);
      assert filter == FilterFor(caller.value, query.Value());
      var tasks, total, err := repo.FindTasks(filter, like, sorted, countFault, findFault);
      if err.Some? {
        return ListFailed(ServiceWrap(Annotated(ListingTasks, err.value)));
      }

      var totalPages := CountPages(total, query.limit);
      var items := ComposeItems(tasks);
      return Listed(items, total, query.limit, query.page, totalPages);
    }
  }
}
