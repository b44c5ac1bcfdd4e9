/** Request validation and normalisation (internal/validations/task_validation.go). */
module Validations {
  import opened Prelude
  import opened Tasks
  import Paging

  /** `len` of a Go string: its size in UTF-8 bytes. */
  function ByteLength(s: string): nat {
    if s == "" then 0
    else
      var c := s[0] as int;
      (if c < 0x80 then 1 else if c < 0x800 then 2 else if c < 0x10000 then 3 else 4)
      + ByteLength(s[1..])
  }

  /** The library's In rule skips the empty value. */
  predicate InWorkflow(status: string) {
    status == "" || IsWorkflow(status)
  }

  /** `titleAccepted` is the verdict of the library's Required and Length rules on the title. */
  predicate ValidCreate(req: CreateRequest, titleAccepted: bool) {
    titleAccepted && InWorkflow(req.status) && req.assignee != Some(NIL)
  }

  predicate ValidUpdate(req: UpdateRequest) {
    && (req.title.Some? || req.description.Some? || req.status.Some? || req.assignee.Some?)
    && req.version >= 1
    && (req.title.Some? ==>
          var trimmed := Trim(req.title.value);
          trimmed != "" && ByteLength(trimmed) <= 255)
    && (req.status.Some? ==> InWorkflow(Trim(req.status.value)))
    && req.assignee != Some(NIL)
  }

  predicate ValidAssign(req: AssignRequest) {
    req.assignee != NIL && req.version >= 1
  }

  lemma WorkflowCodesAreTrimmed(status: string)
    requires IsWorkflow(status)
    ensures Trim(status) == status
  {
    TrimIsProjection(status);
  }

  // ---- list queries ------------------------------------------------------------

  datatype ListQuery = ListQuery(
    page: int,
    limit: int,
    status: string,
    title: string,
    team: Option<Id>,
    creator: Option<Id>,
    assignee: Option<Id>,
    orderBy: string)

  function Normalized(q: ListQuery): ListQuery {
    q.(page := Paging.NormalPage(q.page),
       limit := Paging.NormalLimit(q.limit),
       title := Trim(q.title),
       status := Trim(q.status))
  }

  function FilterComplaint(team: Option<Id>, creator: Option<Id>, assignee: Option<Id>): Option<string> {
    if team == Some(NIL) then Some("team_id cannot be nil uuid")
    else if creator == Some(NIL) then Some("creator_id cannot be nil uuid")
    else if assignee == Some(NIL) then Some("assignee_id cannot be nil uuid")
    else None
  }

  /** What is wrong with a normalised query, in the order the checks are made. */
  function Complaint(q: ListQuery): Option<string> {
    if !InWorkflow(q.status) then Some("status must be a valid task status")
    else FilterComplaint(q.team, q.creator, q.assignee)
  }

  /** Validating an already validated query changes nothing and gives the same verdict. */
  lemma NormalisingTwice(q: ListQuery)
    ensures Normalized(Normalized(q)) == Normalized(q)
    ensures 1 <= Normalized(q).limit <= 100 && Normalized(q).page >= 1
  {
    TrimIsProjection(q.title);
    TrimIsProjection(q.status);
    Paging.NormalisationSettles(q.page, q.limit);
  }

  class ListTasksQuery {
    var page: int
    var limit: int
    var status: string
    var title: string
    var team: Option<Id>
    var creator: Option<Id>
    var assignee: Option<Id>
    var orderBy: string

    function Value(): ListQuery
      reads this
    {
      ListQuery(page, limit, status, title, team, creator, assignee, orderBy)
    }

    constructor (q: ListQuery)
      ensures Value() == q
    {
      page, limit, status, title := q.page, q.limit, q.status, q.title;
      team, creator, assignee, orderBy := q.team, q.creator, q.assignee, q.orderBy;
    }

    /** Rewrites the query in place; an early return leaves it normalised all the same. */
    method Validate() returns (err: Option<string>)
      modifies this`page, this`limit, this`status, this`title
      ensures Value() == Normalized(old(Value()))
      ensures err == Complaint(Value())
    {
      Normalize();
      if status != "" {
        var known := IsWorkflow(status);
        if !known {
          return Some("status must be a valid task status");
        }
      }
      err := CheckFilters();
    }

    method Normalize()
      modifies this`page, this`limit, this`status, this`title
      ensures Value() == Normalized(old(Value()))
    {
      if limit <= 0 {
        limit := 10;
      } else if limit > 100 {
        limit := 100;
      }
      if page <= 0 {
        page := 1;
      }
      title := Trim(title);
      status := Trim(status);
    }

    method CheckFilters() returns (err: Option<string>)
      ensures err == FilterComplaint(team, creator, assignee)
    {
      if team.Some? && team.value == NIL {
        return Some("team_id cannot be nil uuid");
      }
      if creator.Some? && creator.value == NIL {
        return Some("creator_id cannot be nil uuid");
      }
      if assignee.Some? && assignee.value == NIL {
        return Some("assignee_id cannot be nil uuid");
      }
      return None;
    }
  }
}
