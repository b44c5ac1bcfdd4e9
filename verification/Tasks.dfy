/**
  Entities and request payloads (internal/models, internal/dtos/task_dto.go,
  internal/constants/task.go).  Identifiers are opaque; 0 plays the nil UUID.
  Timestamps, notes and metadata are not modelled.
*/
module Tasks {
  import opened Prelude

  type Id = nat
  type Key = nat
  const NIL: nat := 0

  // ---- strings.TrimSpace -------------------------------------------------

  /** Unicode white space, as the Go standard library defines it. */
  predicate IsSpace(c: char) {
    var n := c as int;
    || 9 <= n <= 13 || n == 0x20 || n == 0x85 || n == 0xA0 || n == 0x1680
    || 0x2000 <= n <= 0x200A || n == 0x2028 || n == 0x2029 || n == 0x202F
    || n == 0x205F || n == 0x3000
  }

  function TrimLeft(s: string): string {
    if s != "" && IsSpace(s[0]) then TrimLeft(s[1..]) else s
  }

  function TrimRight(s: string): string {
    if s != "" && IsSpace(s[|s| - 1]) then TrimRight(s[..|s| - 1]) else s
  }

  function Trim(s: string): string {
    TrimRight(TrimLeft(s))
  }

  predicate Trimmed(s: string) {
    s == "" || (!IsSpace(s[0]) && !IsSpace(s[|s| - 1]))
  }

  lemma {:induction false} TrimLeftClean(s: string)
    ensures TrimLeft(s) == "" || !IsSpace(TrimLeft(s)[0])
  {
    if s != "" && IsSpace(s[0]) {
      TrimLeftClean(s[1..]);
    }
  }

  lemma {:induction false} TrimRightClean(s: string)
    requires s == "" || !IsSpace(s[0])
    ensures Trimmed(TrimRight(s))
  {
    if s != "" && IsSpace(s[|s| - 1]) {
      TrimRightClean(s[..|s| - 1]);
    }
  }

  /** Trimming yields a trimmed string and fixes exactly the trimmed strings. */
  lemma TrimIsProjection(s: string)
    ensures Trimmed(Trim(s))
    ensures Trim(s) == s <==> Trimmed(s)
    ensures Trim(Trim(s)) == Trim(s)
  {
    TrimLeftClean(s);
    TrimRightClean(TrimLeft(s));
  }

  predicate AllSpace(s: string) {
    forall i :: 0 <= i < |s| ==> IsSpace(s[i])
  }

  lemma {:induction false} TrimLeftStrips(s: string) returns (left: string)
    ensures s == left + TrimLeft(s) && AllSpace(left)
  {
    left := "";
    if s != "" && IsSpace(s[0]) {
      var rest := TrimLeftStrips(s[1..]);
      left := [s[0]] + rest;
      assert s == [s[0]] + s[1..];
    }
  }

  lemma {:induction false} TrimRightStrips(s: string) returns (right: string)
    ensures s == TrimRight(s) + right && AllSpace(right)
  {
    right := "";
    if s != "" && IsSpace(s[|s| - 1]) {
      var rest := TrimRightStrips(s[..|s| - 1]);
      right := rest + [s[|s| - 1]];
      assert s == s[..|s| - 1] + [s[|s| - 1]];
    }
  }

  /**
    Trimming removes white space at the ends and nothing else; with TrimIsProjection, it
    removes all of it.
  */
  lemma TrimStrips(s: string) returns (left: string, right: string)
    ensures s == left + Trim(s) + right && AllSpace(left) && AllSpace(right)
  {
    left := TrimLeftStrips(s);
    right := TrimRightStrips(TrimLeft(s));
  }

  // ---- workflow codes and actions ------------------------------------------

  const TODO := "todo"
  const IN_PROGRESS := "in_progress"
  const CODE_REVIEW := "code_review"
  const READY_FOR_QA := "ready_for_qa"
  const DONE := "done"

  predicate IsWorkflow(status: string) {
    || status == TODO || status == IN_PROGRESS || status == CODE_REVIEW
    || status == READY_FOR_QA || status == DONE
  }

  datatype Action = CREATE | UPDATE | STATUS_UPDATE | ASSIGN | DELETE

  predicate IsEdit(a: Action) {
    a.UPDATE? || a.STATUS_UPDATE? || a.ASSIGN?
  }

  // ---- entities --------------------------------------------------------------

  datatype Task = Task(
    id: Id,
    title: string,
    description: string,
    status: string,
    creator: Id,
    assignee: Option<Id>,
    team: Id,
    version: int)

  datatype TaskLog = TaskLog(
    taskId: Id,
    action: Action,
    actor: Id,
    fromAssignee: Option<Id>,
    toAssignee: Option<Id>,
    fromStatus: Option<string>,
    toStatus: Option<string>)

  datatype AuthUser = AuthUser(userId: Id, teamId: Id)

  // ---- payloads --------------------------------------------------------------

  datatype CreateRequest = CreateRequest(
    title: string,
    description: string,
    status: string,
    assignee: Option<Id>)

  datatype UpdateRequest = UpdateRequest(
    version: int,
    title: Option<string>,
    description: Option<string>,
    status: Option<string>,
    assignee: Option<Id>)

  datatype AssignRequest = AssignRequest(assignee: Id, version: int)

  datatype Response = Response(
    id: Id,
    title: string,
    description: string,
    status: string,
    creator: Id,
    assignee: Option<Id>,
    team: Id,
    version: int)

  /** composeTaskResponse for a task without preloaded relations. */
  function Compose(t: Task): Response {
    Response(t.id, t.title, t.description, t.status, t.creator, t.assignee, t.team, t.version)
  }
}
