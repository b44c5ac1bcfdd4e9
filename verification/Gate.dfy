/**
  What the controllers let through, and what they answer to the rest
  (internal/controllers/task_controller.go with internal/validations/task_validation.go).
*/
module Gate {
  import opened Prelude
  import opened AppErrors
  import opened Tasks
  import opened Planning
  import opened Engine
  import Validations

  /** The status codes the validators let through: none, or one of the workflow's. */
  const STATUSES := {"", "todo", "in_progress", "code_review", "ready_for_qa", "done"}

  function Refusal(pc: CreatePc): Option<Shown> {
    match pc
    case Replied(Fail(err)) => Some(Surface(err))
    case _ => None
  }

  /**
    A create request gets through if and only if its key is a non-nil UUID, the title passes its
    rules, the status is empty or a workflow code as it stands, and the assignee is not the nil
    UUID; otherwise it is answered with 400, the key being complained of first if it is blank
    and last if it is malformed.
  */
  lemma CreateGateExactly(caller: Option<AuthUser>, header: Header, req: CreateRequest, titleAccepted: bool)
    ensures var p := AdmitCreate(caller, header, req, titleAccepted);
            var valid := titleAccepted && req.status in STATUSES && req.assignee != Some(0);
            var keyed := header.Parsed? && header.key != 0;
            && p.caller == caller && p.req == req
            && (if valid && keyed then p.pc == Start && p.key == header.key
                else Refusal(p.pc)
                     == Some(Shown(400, "BAD_REQUEST",
                                   if header.Blank? || valid then "invalid or missing idempotency key"
                                   else "request failed validation")))
  {
    assert Outermost(VALIDATION_ERROR).None?;
  }

  /**
    An edit request gets through if and only if its task id is not nil and: an update names a
    version from 1 on, changes something, gives a title only if it does not trim to nothing or
    to more than 255 bytes, a status only if it trims to nothing or a workflow code, and no nil
    assignee; an assignment names such a version and no nil assignee.
  */
  lemma EditGateExactly(caller: Option<AuthUser>, call: Call)
    ensures var p := AdmitEdit(caller, call);
            var valid := call.id != 0 && match call
                         case Update(_, req) =>
                           && req.version >= 1
                           && !(req.title.None? && req.description.None? && req.status.None? && req.assignee.None?)
                           && (req.title.Some? ==> 1 <= Validations.ByteLength(Trim(req.title.value)) <= 255)
                           && (req.status.Some? ==> Trim(req.status.value) in STATUSES)
                           && req.assignee != Some(0)
                         case Assign(_, req) => req.version >= 1 && req.assignee != 0
                         case Delete(_) => true;
            && p.caller == caller && p.call == call
            && (p.pc == Waiting <==> valid)
            && (!valid ==> p.pc.Answered? && p.pc.reply.Fail?
                           && Surface(p.pc.reply.err) == Shown(400, "BAD_REQUEST", "request failed validation"))
  {
    assert Outermost(VALIDATION_ERROR).None?;
  }

  /**
    A list query passes if and only if its status is empty or a workflow code and no id in it
    is nil, the first of these that fails being complained of; page and limit are brought into
    range, the texts trimmed, and the rest is kept.
  */
  lemma QueryGateExactly(q: Validations.ListQuery)
    ensures Validations.Complaint(Validations.Normalized(q)).None?
            <==> Trim(q.status) in STATUSES && q.team != Some(0) && q.creator != Some(0) && q.assignee != Some(0)
    ensures var n := Validations.Normalized(q);
            && n.team == q.team && n.creator == q.creator && n.assignee == q.assignee && n.orderBy == q.orderBy
            && n.title == Trim(q.title) && n.status == Trim(q.status)
            && n.page == (if q.page < 1 then 1 else q.page)
            && n.limit == (if q.limit < 1 then 10 else if q.limit > 100 then 100 else q.limit)
    ensures Validations.Complaint(Validations.Normalized(q))
         == if Trim(q.status) !in STATUSES then Some("status must be a valid task status")
            else if q.team == Some(0) then Some("team_id cannot be nil uuid")
            else if q.creator == Some(0) then Some("creator_id cannot be nil uuid")
            else if q.assignee == Some(0) then Some("assignee_id cannot be nil uuid")
            else None
  {
  }
}
