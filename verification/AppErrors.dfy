/**
  Application errors and Go error chains (internal/pkg/apperror/apperror.go,
  internal/constants/error.go, and the two wrapError helpers of the service and
  controller layers).
*/
module AppErrors {
  import opened Prelude

  /** Where a leaf error comes from; the text of a foreign library's error is its own. */
  datatype Cause =
    | Described(text: string)
    | DatabaseFailure
    | RedisFailure
    | ContextCanceled
    | WaitTimedOut
    | ValidationFailed

  /** What the service was doing when it annotated an error. */
  datatype Context =
    | Doing(text: string)
    | FindingTask
    | CheckingAssignee
    | CreatingTask
    | UpdatingTask
    | AssigningTask
    | DeletingTask
    | ListingTasks
    | CheckingCache
    | AcquiringLock
    | SavingReply

  function CauseText(c: Cause): string {
    match c
    case Described(text) => text
    case DatabaseFailure => "database failure"
    case RedisFailure => "redis failure"
    case ContextCanceled => "context canceled"
    case WaitTimedOut => "timeout waiting for concurrent task creation"
    case ValidationFailed => "request failed validation"
  }

  function ContextText(c: Context): string {
    match c
    case Doing(text) => text
    case FindingTask => "failed to find task"
    case CheckingAssignee => "failed to check assignee"
    case CreatingTask => "failed to create task"
    case UpdatingTask => "failed to update task"
    case AssigningTask => "failed to assign task"
    case DeletingTask => "failed to delete task"
    case ListingTasks => "failed to list tasks"
    case CheckingCache => "failed to check idempotency cache"
    case AcquiringLock => "failed to acquire idempotency lock"
    case SavingReply => "failed to save idempotency cache"
  }

  /** A finite Go error chain: a leaf, a `fmt.Errorf("...: %w")` layer, or an AppError. */
  datatype Error =
    | Plain(cause: Cause)
    | Annotated(context: Context, inner: Error)
    | App(app: AppError)

  datatype AppError = AppError(httpStatus: int, code: string, message: string, raw: Option<Error>)

  /** What an HTTP client is shown of an AppError. */
  datatype Shown = Shown(httpStatus: int, code: string, message: string)

  const BAD_REQUEST := AppError(400, "BAD_REQUEST", "bad request", None)
  const UNAUTHORIZED := AppError(401, "UNAUTHORIZED", "unauthorized access", None)
  const TASK_NOT_FOUND := AppError(404, "NOT_FOUND", "task not found", None)
  const STALE_VERSION := AppError(409, "CONFLICT", "stale resource version", None)
  const ASSIGNEE_NOT_IN_TEAM := AppError(400, "BAD_REQUEST", "assignee must belong to the same team", None)
  const INVALID_IDEMPOTENCY_KEY := AppError(400, "BAD_REQUEST", "invalid or missing idempotency key", None)
  const INTERNAL := AppError(500, "INTERNAL_SERVER_ERROR", "internal server error", None)

  function Show(a: AppError): Shown {
    Shown(a.httpStatus, a.code, a.message)
  }

  /** The text of an error: `Error()` on every kind of chain node. */
  function Text(e: Error): string {
    match e
    case Plain(cause) => CauseText(cause)
    case Annotated(context, inner) => ContextText(context) + ": " + Text(inner)
    case App(a) =>
      if a.message != "" then a.message
      else match a.raw
        case Some(r) => Text(r)
        case None => ""
  }

  /** `errors.As(e, &appErr)`: the first AppError met while unwrapping. */
  function Outermost(e: Error): Option<AppError> {
    match e
    case Plain(_) => None
    case Annotated(_, inner) => Outermost(inner)
    case App(a) => Some(a)
  }

  /** `template.Wrap(raw)` for a non-nil template and a non-nil error. */
  function Wrap(template: AppError, raw: Error): AppError {
    match Outermost(raw)
    case Some(existing) => existing
    case None =>
      AppError(
        template.httpStatus,
        template.code,
        if template.httpStatus < 500 then Text(raw) else template.message,
        Some(raw))
  }

  /** `Wrap` with the nil receiver and nil argument it also accepts. */
  function WrapPointer(template: Option<AppError>, raw: Option<Error>): Option<AppError> {
    if template.None? then None
    else if raw.None? then template
    else Some(Wrap(template.value, raw.value))
  }

  function WithMessage(a: Option<AppError>, message: string): Option<AppError> {
    if a.None? then None else Some(a.value.(message := message))
  }

  /** `a.Is(target)` for a non-nil receiver and target. */
  predicate Is(a: AppError, target: Error) {
    Outermost(target).Some? && Show(a) == Show(Outermost(target).value)
  }

  /** `errors.Is(e, target)` for an AppError target: some AppError of the chain matches it. */
  predicate ErrorsIs(e: Error, target: AppError) {
    match e
    case Plain(_) => false
    case Annotated(_, inner) => ErrorsIs(inner, target)
    case App(a) =>
      || Is(a, App(target))
      || match a.raw
         case Some(r) => ErrorsIs(r, target)
         case None => false
  }

  /** The service layer's wrapError. */
  function ServiceWrap(e: Error): Error {
    App(Wrap(INTERNAL, e))
  }

  /** The controller layer's wrapError: what the client sees for a service error. */
  function Surface(e: Error): Shown {
    Show(Wrap(INTERNAL, e))
  }

  /**
    The nil cases of `Wrap`, and a new message: a nil template loses the error, a nil error
    leaves the template, an AppError below takes precedence and keeps its own message, and
    around any other error a server template shows the message it was given, a client template
    (status below 500) the text of the error instead.
  */
  lemma PointersWrap(template: Option<AppError>, message: string, raw: Option<Error>)
    ensures WrapPointer(template, raw).Some? <==> template.Some?
    ensures template.Some? && raw.Some? && Outermost(raw.value).Some? ==>
              WrapPointer(WithMessage(template, message), raw) == Outermost(raw.value)
    ensures template.Some? && (raw.Some? ==> Outermost(raw.value).None?) ==>
              Show(WrapPointer(WithMessage(template, message), raw).value)
              == Shown(template.value.httpStatus, template.value.code,
                       if raw.Some? && template.value.httpStatus < 500 then Text(raw.value) else message)
    ensures template.Some? && (raw.Some? ==> Outermost(raw.value).None?) ==>
              WrapPointer(WithMessage(template, message), raw).value.raw
              == (if raw.Some? then raw else template.value.raw)
  {
  }

  /** One layer of code an error passes through on its way up. */
  datatype Layer = Annotate(context: Context) | WrapWith(template: AppError)

  function Lift(e: Error, layer: Layer): Error {
    match layer
    case Annotate(context) => Annotated(context, e)
    case WrapWith(template) => App(Wrap(template, e))
  }

  function Through(e: Error, layers: seq<Layer>): Error
    decreases |layers|
  {
    if layers == [] then e else Through(Lift(e, layers[0]), layers[1..])
  }

  /** The outermost AppError of a chain is never displaced, however many layers follow. */
  lemma {:induction false} OutermostWins(e: Error, layers: seq<Layer>)
    requires Outermost(e).Some?
    ensures Outermost(Through(e, layers)) == Outermost(e)
    decreases |layers|
  {
    if layers != [] {
      OutermostWins(Lift(e, layers[0]), layers[1..]);
    }
  }

  /**
    A chain without an AppError gets one from the first wrapping layer, made from the
    chain as annotated so far; every later layer keeps it.
  */
  lemma {:induction false} FirstWrapDecides(e: Error, before: seq<Layer>, template: AppError, after: seq<Layer>)
    requires Outermost(e).None?
    requires forall l :: l in before ==> l.Annotate?
    ensures Outermost(Through(e, before)).None?
    ensures Outermost(Through(e, before + [WrapWith(template)] + after))
         == Some(Wrap(template, Through(e, before)))
    decreases |before|
  {
    var all := before + [WrapWith(template)] + after;
    if before == [] {
      assert all[1..] == after;
      OutermostWins(App(Wrap(template, e)), after);
    } else {
      assert all[1..] == before[1..] + [WrapWith(template)] + after;
      FirstWrapDecides(Lift(e, before[0]), before[1..], template, after);
    }
  }

  /**
    Wrapping composes: any stack of service layers (annotations and the service's own
    wrapError) followed by the controller's wrapError shows the client what wrapping
    once would: the outermost AppError, or a 500 with the fixed safe message.
  */
  lemma {:induction false} WrappingComposes(e: Error, layers: seq<Layer>)
    requires forall l :: l in layers && l.WrapWith? ==> l.template == INTERNAL
    ensures Surface(Through(e, layers)) == Surface(e)
    ensures Surface(e) == match Outermost(e)
                          case Some(a) => Show(a)
                          case None => Shown(500, "INTERNAL_SERVER_ERROR", "internal server error")
    decreases |layers|
  {
    if layers != [] {
      WrappingComposes(Lift(e, layers[0]), layers[1..]);
    }
  }

  /** No layer hides the outermost AppError from `errors.Is`. */
  lemma {:induction false} IdentityKept(e: Error, layers: seq<Layer>, target: AppError)
    requires Outermost(e).Some? && Is(Outermost(e).value, App(target))
    ensures ErrorsIs(Through(e, layers), target)
  {
    OutermostWins(e, layers);
    OutermostIsSeen(Through(e, layers), target);
  }

  /** The AppErrors met while unwrapping a chain, outermost first. */
  function Chain(e: Error): seq<AppError> {
    match e
    case Plain(_) => []
    case Annotated(_, inner) => Chain(inner)
    case App(a) => [a] + (match a.raw case Some(r) => Chain(r) case None => [])
  }

  /**
    `errors.As` finds the first AppError of the chain, and `errors.Is` recognises a target if and
    only if some AppError of the chain has its status, code and message.
  */
  lemma {:induction false} ChainDecides(e: Error, target: AppError)
    ensures Outermost(e) == if Chain(e) == [] then None else Some(Chain(e)[0])
    ensures ErrorsIs(e, target)
            <==> exists a :: a in Chain(e) && a.httpStatus == target.httpStatus && a.code == target.code
                             && a.message == target.message
  {
    match e
    case Plain(_) =>
    case Annotated(_, inner) => ChainDecides(inner, target);
    case App(a) =>
      if a.raw.Some? {
        ChainDecides(a.raw.value, target);
      }
      assert a in Chain(e);
  }

  /** What annotations add to a text, the latest of them first. */
  function Prefixes(notes: seq<string>): string {
    if notes == [] then "" else notes[|notes| - 1] + ": " + Prefixes(notes[..|notes| - 1])
  }

  function Annotations(notes: seq<string>): seq<Layer>
    ensures |Annotations(notes)| == |notes|
  {
    if notes == [] then [] else [Annotate(Doing(notes[0]))] + Annotations(notes[1..])
  }

  lemma {:induction false} PrefixesSplit(notes: seq<string>)
    requires notes != []
    ensures Prefixes(notes) == Prefixes(notes[1..]) + (notes[0] + ": ")
  {
    var n := |notes| - 1;
    if n > 0 {
      PrefixesSplit(notes[..n]);
      assert notes[..n][1..] == notes[1..][..n - 1];
    }
  }

  /** The text of an annotated error: the annotations, outermost first, then the error's own text. */
  lemma {:induction false} AnnotatedText(e: Error, notes: seq<string>)
    ensures Text(Through(e, Annotations(notes))) == Prefixes(notes) + Text(e)
    decreases |notes|
  {
    if notes != [] {
      AnnotatedText(Annotated(Doing(notes[0]), e), notes[1..]);
      FirstNote(e, notes);
      PrefixesSplit(notes);
      Associates(Prefixes(notes[1..]), notes[0] + ": ", Text(e));
    }
  }

  lemma FirstNote(e: Error, notes: seq<string>)
    requires notes != []
    ensures Through(e, Annotations(notes)) == Through(Annotated(Doing(notes[0]), e), Annotations(notes[1..]))
    ensures Text(Annotated(Doing(notes[0]), e)) == notes[0] + ": " + Text(e)
  {
    assert Annotations(notes)[1..] == Annotations(notes[1..]);
  }

  lemma Associates(a: string, b: string, c: string)
    ensures a + b + c == a + (b + c)
  {
  }

  /** What the clients are shown of the service's own errors, through any layers. */
  lemma ClientsAreShown(layers: seq<Layer>)
    requires forall l :: l in layers && l.WrapWith? ==> l.template == INTERNAL
    ensures Surface(Through(App(UNAUTHORIZED), layers)) == Shown(401, "UNAUTHORIZED", "unauthorized access")
    ensures Surface(Through(App(TASK_NOT_FOUND), layers)) == Shown(404, "NOT_FOUND", "task not found")
    ensures Surface(Through(App(STALE_VERSION), layers)) == Shown(409, "CONFLICT", "stale resource version")
    ensures Surface(Through(App(ASSIGNEE_NOT_IN_TEAM), layers))
         == Shown(400, "BAD_REQUEST", "assignee must belong to the same team")
    ensures Surface(Through(App(INVALID_IDEMPOTENCY_KEY), layers))
         == Shown(400, "BAD_REQUEST", "invalid or missing idempotency key")
  {
    WrappingComposes(App(UNAUTHORIZED), layers);
    WrappingComposes(App(TASK_NOT_FOUND), layers);
    WrappingComposes(App(STALE_VERSION), layers);
    WrappingComposes(App(ASSIGNEE_NOT_IN_TEAM), layers);
    WrappingComposes(App(INVALID_IDEMPOTENCY_KEY), layers);
  }

  lemma OutermostIsSeen(e: Error, target: AppError)
    requires Outermost(e).Some? && Is(Outermost(e).value, App(target))
    ensures ErrorsIs(e, target)
  {
  }
}
