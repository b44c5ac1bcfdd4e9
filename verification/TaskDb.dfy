/**
  The relational store behind internal/repositories/task_repository.go: users, task rows
  with a soft-delete flag, and the audit log in commit order.  `Db` is its value; the
  functions on it say what each repository transaction does; `TaskRepository` runs the
  transactions statement by statement, rolling back when one fails.
*/
module TaskDb {
  import opened Prelude
  import opened AppErrors
  import opened Tasks
  import Paging

  datatype Row = Row(task: Task, deleted: bool)

  /** `users` maps a user to the user's team. */
  datatype Db = Db(users: map<Id, Id>, rows: map<Id, Row>, logs: seq<TaskLog>)

  /** Where a transaction fails, if it does; `Unacknowledged` commits but reports failure. */
  datatype Fault = NoFault | WriteFails | LogFails | Unacknowledged

  datatype Outcome = Outcome(db: Db, err: Option<Error>)

  const DB_ERROR := Plain(DatabaseFailure)

  /** FindTaskByID: soft-deleted rows are invisible. */
  function Alive(db: Db, id: Id): Option<Task> {
    if id in db.rows && !db.rows[id].deleted then Some(db.rows[id].task) else None
  }

  function FindUser(db: Db, id: Id): Option<Id> {
    if id in db.users then Some(db.users[id]) else None
  }

  function Put(db: Db, row: Row, log: TaskLog): Db {
    db.(rows := db.rows[row.task.id := row], logs := db.logs + [log.(taskId := row.task.id)])
  }

  /** How a transaction whose first statement succeeded ends. */
  function Finish(before: Db, after: Db, fault: Fault): Outcome {
    match fault
    case NoFault => Outcome(after, None)
    case Unacknowledged => Outcome(after, Some(DB_ERROR))
    case _ => Outcome(before, Some(DB_ERROR))
  }

  function CreateWithLog(db: Db, task: Task, log: TaskLog, fault: Fault): Outcome {
    if fault.WriteFails? || task.id in db.rows then Outcome(db, Some(DB_ERROR))
    else Finish(db, Put(db, Row(task, false), log), fault)
  }

  /** The row matched by `id = ? AND version = ?`, if any. */
  function Matched(db: Db, id: Id, version: int): Option<Task> {
    var row := Alive(db, id);
    if row.Some? && row.value.version == version then row else None
  }

  function UpdateWithLog(db: Db, task: Task, expected: int, log: TaskLog, fault: Fault): Outcome {
    var row := Matched(db, task.id, expected);
    if fault.WriteFails? then Outcome(db, Some(DB_ERROR))
    else if row.None? then Outcome(db, Some(App(STALE_VERSION)))
    else
      var merged := row.value.(
        title := task.title, description := task.description, status := task.status,
        assignee := task.assignee, version := task.version, id := task.id);
      Finish(db, Put(db, Row(merged, false), log), fault)
  }

  function AssignWithLog(db: Db, task: Task, expected: int, log: TaskLog, fault: Fault): Outcome {
    var row := Matched(db, task.id, expected);
    if fault.WriteFails? then Outcome(db, Some(DB_ERROR))
    else if row.None? then Outcome(db, Some(App(STALE_VERSION)))
    else
      var merged := row.value.(assignee := task.assignee, version := task.version, id := task.id);
      Finish(db, Put(db, Row(merged, false), log), fault)
  }

  /** The delete does not look at the number of rows it affected. */
  function DeleteWithLog(db: Db, id: Id, log: TaskLog, fault: Fault): Outcome {
    if fault.WriteFails? then Outcome(db, Some(DB_ERROR))
    else
      var rows := if Alive(db, id).Some? then db.rows[id := db.rows[id].(deleted := true)] else db.rows;
      Finish(db, db.(rows := rows, logs := db.logs + [log.(taskId := id)]), fault)
  }

  // ---- listing -----------------------------------------------------------------

  datatype SortColumn = CreatedAsc | UpdatedDesc | TitleAsc | TitleDesc | CreatedDesc

  function OrderClause(orderBy: string): SortColumn {
    if orderBy == "earliest" then CreatedAsc
    else if orderBy == "lastUpdated" then UpdatedDesc
    else if orderBy == "title-asc" then TitleAsc
    else if orderBy == "title-desc" then TitleDesc
    else CreatedDesc
  }

  /** `like(title, pattern)` stands for the database's case-insensitive LIKE. */
  datatype TaskFilter = TaskFilter(
    team: Option<Id>,
    creator: Option<Id>,
    assignee: Option<Id>,
    status: string,
    title: string,
    orderBy: string,
    offset: int,
    limit: int)

  predicate Selected(f: TaskFilter, like: (string, string) -> bool, t: Task) {
    && (f.team.Some? ==> Some(t.team) == f.team)
    && (f.creator.Some? ==> Some(t.creator) == f.creator)
    && (f.assignee.Some? ==> t.assignee == f.assignee)
    && (f.status != "" ==> t.status == f.status)
    && (f.title != "" ==> like(t.title, "%" + f.title + "%"))
  }

  /** A sort of the table: every row id exactly once. */
  ghost predicate IsListing(rows: map<Id, Row>, listing: seq<Id>) {
    NoDuplicates(listing) && forall id :: id in listing <==> id in rows
  }

  function Visible(rows: map<Id, Row>, listing: seq<Id>): (tasks: seq<Task>)
    requires forall id :: id in listing ==> id in rows
  {
    if listing == [] then []
    else
      var rest := Visible(rows, listing[1..]);
      if rows[listing[0]].deleted then rest else [rows[listing[0]].task] + rest
  }

  function Matching(rows: map<Id, Row>, listing: seq<Id>, f: TaskFilter, like: (string, string) -> bool): seq<Task>
    requires forall id :: id in listing ==> id in rows
  {
    Filter(Visible(rows, listing), (t: Task) => Selected(f, like, t))
  }

  lemma {:induction false} VisibleHas(rows: map<Id, Row>, listing: seq<Id>, t: Task)
    requires forall id :: id in listing ==> id in rows && rows[id].task.id == id
    ensures t in Visible(rows, listing) <==> t.id in listing && rows[t.id] == Row(t, false)
  {
    if listing != [] {
      VisibleHas(rows, listing[1..], t);
    }
  }

  lemma {:induction false} VisibleNoDuplicates(rows: map<Id, Row>, listing: seq<Id>)
    requires forall id :: id in listing ==> id in rows && rows[id].task.id == id
    requires NoDuplicates(listing)
    ensures NoDuplicates(Visible(rows, listing))
  {
    if listing != [] {
      VisibleNoDuplicates(rows, listing[1..]);
      var head := rows[listing[0]].task;
      VisibleHas(rows, listing[1..], head);
      assert listing[0] !in listing[1..];
    }
  }

  /**
    What the filtered list is: each live row that satisfies the filter exactly once, and
    nothing else.
  */
  lemma MatchingIsExact(rows: map<Id, Row>, listing: seq<Id>, f: TaskFilter, like: (string, string) -> bool)
    requires IsListing(rows, listing)
    requires forall id :: id in rows ==> rows[id].task.id == id
    ensures NoDuplicates(Matching(rows, listing, f, like))
    ensures forall t :: t in Matching(rows, listing, f, like)
              <==> t.id in rows && rows[t.id] == Row(t, false) && Selected(f, like, t)
  {
    VisibleNoDuplicates(rows, listing);
    FilterNoDuplicates(Visible(rows, listing), (t: Task) => Selected(f, like, t));
    forall t ensures t in Matching(rows, listing, f, like)
                     <==> t.id in rows && rows[t.id] == Row(t, false) && Selected(f, like, t) {
      VisibleHas(rows, listing, t);
    }
  }

  lemma MatchingStep(rows: map<Id, Row>, listing: seq<Id>, f: TaskFilter, like: (string, string) -> bool)
    requires listing != [] && forall id :: id in listing ==> id in rows
    ensures var rest := Matching(rows, listing[1..], f, like);
            var head := rows[listing[0]];
            Matching(rows, listing, f, like)
            == if !head.deleted && Selected(f, like, head.task) then [head.task] + rest else rest
  {
    var tail := Visible(rows, listing[1..]);
    assert ([rows[listing[0]].task] + tail)[1..] == tail;
  }

  /** Task `i` of `found` is listed in place `a`. */
  predicate ListedAt(found: seq<Task>, listing: seq<Id>, i: nat, a: nat) {
    i < |found| && a < |listing| && found[i].id == listing[a]
  }

  /** The filtered list is in the order of the sorted table. */
  lemma {:induction false} MatchingInOrder(rows: map<Id, Row>, listing: seq<Id>, f: TaskFilter,
                                           like: (string, string) -> bool, i: nat, j: nat, a: nat, b: nat)
    requires NoDuplicates(listing) && forall id :: id in listing ==> id in rows && rows[id].task.id == id
    requires var found := Matching(rows, listing, f, like);
             i < j && ListedAt(found, listing, i, a) && ListedAt(found, listing, j, b)
    ensures a < b
  {
    MatchingStep(rows, listing, f, like);
    var found := Matching(rows, listing, f, like);
    var rest := Matching(rows, listing[1..], f, like);
    var shift := if found == rest then 0 else 1;
    RestIsListed(rows, listing, f, like);
    if i >= shift {
      assert rest[i - shift] == found[i] && rest[j - shift] == found[j];
      MatchingInOrder(rows, listing[1..], f, like, i - shift, j - shift, a - 1, b - 1);
    } else {
      assert rest[j - 1] == found[j];
      assert found[i].id == listing[0];
    }
  }

  /** No task of the rest of the list is the first of the table. */
  lemma RestIsListed(rows: map<Id, Row>, listing: seq<Id>, f: TaskFilter, like: (string, string) -> bool)
    requires listing != [] && NoDuplicates(listing)
    requires forall id :: id in listing ==> id in rows && rows[id].task.id == id
    ensures forall t :: t in Matching(rows, listing[1..], f, like) ==> t.id != listing[0]
  {
    forall t | t in Matching(rows, listing[1..], f, like) ensures t.id != listing[0] {
      VisibleHas(rows, listing[1..], t);
      assert listing[0] !in listing[1..];
    }
  }

  /** The order_by values of the service, and the default for every other one. */
  lemma OrderClauseExactly(orderBy: string)
    ensures OrderClause(orderBy) == CreatedAsc <==> orderBy == "earliest"
    ensures OrderClause(orderBy) == UpdatedDesc <==> orderBy == "lastUpdated"
    ensures OrderClause(orderBy) == TitleAsc <==> orderBy == "title-asc"
    ensures OrderClause(orderBy) == TitleDesc <==> orderBy == "title-desc"
    ensures OrderClause(orderBy) == CreatedDesc <==>
              orderBy !in {"earliest", "lastUpdated", "title-asc", "title-desc"}
  {
    assert "earliest"[0] == 'e' && "lastUpdated"[0] == 'l' && "title-asc"[6] == 'a' && "title-desc"[6] == 'd';
  }

  // ---- the repository ----------------------------------------------------------

  class TaskRepository {
    var users: map<Id, Id>
    var rows: map<Id, Row>
    var logs: seq<TaskLog>

    function Value(): Db
      reads this
    {
      Db(users, rows, logs)
    }

    constructor ()
      ensures Value() == Db(map[], map[], [])
    {
      users, rows, logs := map[], map[], [];
    }

    method FindTaskByID(id: Id, fault: bool) returns (task: Option<Task>, err: Option<Error>)
      ensures err.Some? <==> fault
      ensures !fault ==> task == Alive(Value(), id)
    {
      task, err := None, None;
      if fault {
        err := Some(DB_ERROR);
      } else if id in rows && !rows[id].deleted {
        task := Some(rows[id].task);
      }
    }

    method FindUserByID(id: Id, fault: bool) returns (team: Option<Id>, err: Option<Error>)
      ensures err.Some? <==> fault
      ensures !fault ==> team == FindUser(Value(), id)
    {
      team, err := None, None;
      if fault {
        err := Some(DB_ERROR);
      } else if id in users {
        team := Some(users[id]);
      }
    }

    method CreateTaskWithLog(task: Task, log: TaskLog, fault: Fault) returns (err: Option<Error>)
      modifies this`rows, this`logs
      ensures Outcome(Value(), err) == CreateWithLog(old(Value()), task, log, fault)
    {
      var saved := rows;
      if fault.WriteFails? || task.id in rows {
        return Some(DB_ERROR);
      }
      rows := rows[task.id := Row(task, false)];
      if fault.LogFails? {
        rows := saved;
        return Some(DB_ERROR);
      }
      logs := logs + [log.(taskId := task.id)];
      err := if fault.Unacknowledged? then Some(DB_ERROR) else None;
    }

    method UpdateTaskWithLog(task: Task, expected: int, log: TaskLog, fault: Fault) returns (err: Option<Error>)
      modifies this`rows, this`logs
      ensures Outcome(Value(), err) == UpdateWithLog(old(Value()), task, expected, log, fault)
    {
      var saved := rows;
      if fault.WriteFails? {
        return Some(DB_ERROR);
      }
      var rowsAffected := 0;
      if task.id in rows && !rows[task.id].deleted && rows[task.id].task.version == expected {
        var row := rows[task.id].task;
        row := row.(title := task.title);
        row := row.(description := task.description);
        row := row.(status := task.status);
        row := row.(assignee := task.assignee);
        row := row.(version := task.version);
        rows := rows[task.id := Row(row.(id := task.id), false)];
        rowsAffected := 1;
      }
      if rowsAffected == 0 {
        return Some(App(STALE_VERSION));
      }
      if fault.LogFails? {
        rows := saved;
        return Some(DB_ERROR);
      }
      logs := logs + [log.(taskId := task.id)];
      err := if fault.Unacknowledged? then Some(DB_ERROR) else None;
    }

    method AssignTaskWithLog(task: Task, expected: int, log: TaskLog, fault: Fault) returns (err: Option<Error>)
      modifies this`rows, this`logs
      ensures Outcome(Value(), err) == AssignWithLog(old(Value()), task, expected, log, fault)
    {
      var saved := rows;
      if fault.WriteFails? {
        return Some(DB_ERROR);
      }
      var rowsAffected := 0;
      if task.id in rows && !rows[task.id].deleted && rows[task.id].task.version == expected {
        var row := rows[task.id].task;
        row := row.(assignee := task.assignee);
        row := row.(version := task.version);
        rows := rows[task.id := Row(row.(id := task.id), false)];
        rowsAffected := 1;
      }
      if rowsAffected == 0 {
        return Some(App(STALE_VERSION));
      }
      if fault.LogFails? {
        rows := saved;
        return Some(DB_ERROR);
      }
      logs := logs + [log.(taskId := task.id)];
      err := if fault.Unacknowledged? then Some(DB_ERROR) else None;
    }

    method DeleteTaskWithLog(id: Id, log: TaskLog, fault: Fault) returns (err: Option<Error>)
      modifies this`rows, this`logs
      ensures Outcome(Value(), err) == DeleteWithLog(old(Value()), id, log, fault)
    {
      var saved := rows;
      if fault.WriteFails? {
        return Some(DB_ERROR);
      }
      if id in rows && !rows[id].deleted {
        rows := rows[id := Row(rows[id].task, true)];
      }
      if fault.LogFails? {
        rows := saved;
        return Some(DB_ERROR);
      }
      logs := logs + [log.(taskId := id)];
      err := if fault.Unacknowledged? then Some(DB_ERROR) else None;
    }

    /**
      Builds the query one WHERE at a time, counts it, then slices the sorted rows.
      `sorted` gives, for each ORDER BY column, the database's total order of the table.
    */
    method FindTasks(f: TaskFilter, like: (string, string) -> bool, sorted: SortColumn -> seq<Id>,
                     countFault: bool, findFault: bool)
      returns (tasks: seq<Task>, total: int, err: Option<Error>)
      requires IsListing(rows, sorted(OrderClause(f.orderBy)))
      ensures err.Some? <==> countFault || findFault
      ensures err.Some? ==> tasks == [] && total == 0 && err == Some(DB_ERROR)
      ensures var found := Matching(rows, sorted(OrderClause(f.orderBy)), f, like);
              err.None? ==> total == |found| && tasks == Paging.Slice(found, f.offset, f.limit)
    {
      var byTeam := (t: Task) => Some(t.team) == f.team;
      var byCreator := (t: Task) => Some(t.creator) == f.creator;
      var byAssignee := (t: Task) => t.assignee == f.assignee;
      var byStatus := (t: Task) => t.status == f.status;
      var byTitle := (t: Task) => like(t.title, "%" + f.title + "%");
      ghost var p0 := (t: Task) => true;
      ghost var p1 := (t: Task) => p0(t) && (f.team.Some? ==> byTeam(t));
      ghost var p2 := (t: Task) => p1(t) && (f.creator.Some? ==> byCreator(t));
      ghost var p3 := (t: Task) => p2(t) && (f.assignee.Some? ==> byAssignee(t));
      ghost var p4 := (t: Task) => p3(t) && (f.status != "" ==> byStatus(t));

      var query := Visible(rows, sorted(OrderClause(f.orderBy)));
      ghost var all := query;
      KeepAll(all, p0);
      if f.team.Some? {
        query := Filter(query, byTeam);
      }
      Narrow(all, p0, f.team.Some?, byTeam, p1);
      if f.creator.Some? {
        query := Filter(query, byCreator);
      }
      Narrow(all, p1, f.creator.Some?, byCreator, p2);
      if f.assignee.Some? {
        query := Filter(query, byAssignee);
      }
      Narrow(all, p2, f.assignee.Some?, byAssignee, p3);
      if f.status != "" {
        query := Filter(query, byStatus);
      }
      Narrow(all, p3, f.status != "", byStatus, p4);
      if f.title != "" {
        query := Filter(query, byTitle);
      }
      Narrow(all, p4, f.title != "", byTitle, (t: Task) => Selected(f, like, t));
      if countFault {
        return [], 0, Some(DB_ERROR);
      }
      total := |query|;
      if findFault {
        return [], 0, Some(DB_ERROR);
      }
      return Paging.Slice(query, f.offset, f.limit), total, None;
    }
  }
}
