/** The mutation-intent lifecycle as functions of the storage state. */
module IntentSpec {
  import opened Prelude
  import opened Json
  import opened CanonicalTheorems
  import opened Audit
  import opened Store
  import opened TxSpec
  import opened OperationBinding

  const INTENT_COLLECTION := "__mutation_intents"

  datatype Operation = DoPreview | DoApprove | DoReject | DoExpire | DoCommit

  datatype LifecycleError =
    | StorageError(cause: Error)
    | IntentNotFound
    | InvalidPreviewState(actual: ApprovalState, expected: ApprovalState)
    | InvalidTransition(operation: Operation, from: ApprovalState, to: ApprovalState)
    | InvalidDecision(operation: Operation, decision: Decision)
    | ReasonRequired(operation: Operation)
    | IntentExpired(operation: Operation, expiresAt: nat, now: nat)
    | NotExpired(expiresAt: nat, now: nat)
    | HashMismatch(expectedHash: string, actualHash: string)

  /** State after a call and what it returned. */
  datatype Effect<T> = Effect(db: Db, result: Result<T, LifecycleError>)

  datatype Review = Review(actor: Option<string>, reason: Option<string>)

  /** Unicode white space, as trimming removes it. */
  predicate IsSpace(c: char)
  {
    var u := c as int;
    9 <= u <= 13 || u in {0x20, 0x85, 0xA0, 0x1680, 0x2028, 0x2029, 0x202F, 0x205F, 0x3000} || 0x2000 <= u <= 0x200A
  }

  predicate HasReason(r: Review)
  {
    r.reason.Some? && exists i :: 0 <= i < |r.reason.value| && !IsSpace(r.reason.value[i])
  }

  // ---------------------------------------------------------------------------
  // Pure rules
  // ---------------------------------------------------------------------------

  function PreviewState(d: Decision): ApprovalState
  {
    match d
    case Allow => Unreviewed
    case Deny => Unreviewed
    case NeedsApproval => Pending
  }

  function CommitExpectedState(i: Intent): Result<ApprovalState, LifecycleError>
  {
    match i.decision
    case Allow => Ok(Unreviewed)
    case NeedsApproval => Ok(Approved)
    case Deny => Err(InvalidDecision(DoCommit, Deny))
  }

  predicate Expirable(s: ApprovalState) { s in {Unreviewed, Pending, Approved} }

  predicate Due(i: Intent, now: nat) { i.expiresAt <= now }

  // ---------------------------------------------------------------------------
  // Unaudited transitions
  // ---------------------------------------------------------------------------

  function SetState(db: Db, k: IntentKey, expected: ApprovalState, next: ApprovalState): Effect<Intent>
  {
    match SetIntentState(db, k, expected, next)
    case Ok(after) => Effect(after, Ok(db.intents[k].(state := next)))
    case Err(e) => Effect(db, Err(StorageError(e)))
  }

  /** Lazy expiry: a due intent is moved to Expired and the call fails. */
  function RejectIfExpired(db: Db, k: IntentKey, i: Intent, now: nat, op: Operation): Effect<()>
  {
    var already := i.state == Expired;
    var moved := if !already && Due(i, now) && Expirable(i.state)
                 then SetState(db, IntentKey(k.scope, i.id), i.state, Expired)
                 else Effect(db, Ok(i));
    if moved.result.Err? then Effect(moved.db, Err(moved.result.error))
    else if already || Due(i, now) then Effect(moved.db, Err(IntentExpired(op, i.expiresAt, now)))
    else Effect(db, Ok(()))
  }

  function ReviewTo(db: Db, k: IntentKey, review: Review, now: nat, op: Operation, to: ApprovalState): Effect<Intent>
  {
    if k !in db.intents then Effect(db, Err(IntentNotFound))
    else
      var i := db.intents[k];
      var live := RejectIfExpired(db, k, i, now, op);
      if live.result.Err? then Effect(live.db, Err(live.result.error))
      else if i.decision != NeedsApproval then Effect(db, Err(InvalidDecision(op, i.decision)))
      else if i.state != Pending then Effect(db, Err(InvalidTransition(op, i.state, to)))
      else if i.reasonRequired && !HasReason(review) then Effect(db, Err(ReasonRequired(op)))
      else SetState(db, k, Pending, to)
  }

  function Approve(db: Db, k: IntentKey, review: Review, now: nat): Effect<Intent>
  {
    ReviewTo(db, k, review, now, DoApprove, Approved)
  }

  function Reject(db: Db, k: IntentKey, review: Review, now: nat): Effect<Intent>
  {
    ReviewTo(db, k, review, now, DoReject, Rejected)
  }

  function Expire(db: Db, k: IntentKey, now: nat): Effect<Intent>
  {
    if k !in db.intents then Effect(db, Err(IntentNotFound))
    else
      var i := db.intents[k];
      if i.expiresAt > now then Effect(db, Err(NotExpired(i.expiresAt, now)))
      else if Expirable(i.state) then SetState(db, k, i.state, Expired)
      else Effect(db, Err(InvalidTransition(DoExpire, i.state, Expired)))
  }

  function MarkCommitted(db: Db, k: IntentKey, hash: Option<string>, now: nat): Effect<Intent>
  {
    if k !in db.intents then Effect(db, Err(IntentNotFound))
    else
      var i := db.intents[k];
      var live := RejectIfExpired(db, k, i, now, DoCommit);
      if live.result.Err? then Effect(live.db, Err(live.result.error))
      else if hash.Some? && i.operationHash != hash.value then Effect(db, Err(HashMismatch(i.operationHash, hash.value)))
      else match CommitExpectedState(i)
        case Err(e) => Effect(db, Err(e))
        case Ok(expected) =>
          if i.state != expected then Effect(db, Err(InvalidTransition(DoCommit, i.state, Committed)))
          else SetState(db, k, expected, Committed)
  }

  // ---------------------------------------------------------------------------
  // Audit entries
  // ---------------------------------------------------------------------------

  function StateName(s: ApprovalState): string
  {
    match s
    case Unreviewed => "none" case Pending => "pending" case Approved => "approved"
    case Rejected => "rejected" case Expired => "expired" case Committed => "committed"
  }

  /** The serialized intent, as audit entries carry it. */
  function IntentData(i: Intent): Json
  {
    Obj(map[
      "intent_id" := Str(i.id),
      "tenant_id" := Str(i.scope.tenantId),
      "database_id" := Str(i.scope.databaseId),
      "schema_version" := Num(Integer(i.schemaVersion)),
      "policy_version" := Num(Integer(i.policyVersion)),
      "operation_hash" := Str(i.operationHash),
      "decision" := Str(DecisionName(i.decision)),
      "approval_state" := Str(StateName(i.state)),
      "expires_at" := Num(Integer(i.expiresAt))])
  }

  function LineageOf(i: Intent, reason: Option<string>): Lineage
  {
    Lineage(i.id, i.decision, None, i.policyVersion, i.schemaVersion, reason)
  }

  function LifecycleEntry(i: Intent, mutation: MutationType, actor: string, before: Option<Json>, after: Json,
                          metadata: map<string, string>, lineage: Lineage): AuditEntry
  {
    NewEntry(Key(INTENT_COLLECTION, i.id), 0, mutation, before, Some(after), Some(actor))
      .(metadata := metadata, lineage := Some(lineage))
  }

  /** The entry of one transition: the intent before and after it. */
  function TransitionEntry(before: Intent, after: Intent, mutation: MutationType, actor: string,
                           reason: Option<string>): AuditEntry
  {
    LifecycleEntry(after, mutation, actor, Some(IntentData(before)), IntentData(after),
                   if reason.Some? then map["reason" := reason.value] else map[], LineageOf(after, reason))
  }

  function PreviewMetadata(i: Intent): map<string, string>
  {
    map["decision" := DecisionName(i.decision),
        "schema_version" := NatText(i.schemaVersion),
        "policy_version" := NatText(i.policyVersion),
        "operation_hash" := i.operationHash,
        "expires_at" := NatText(i.expiresAt)]
  }

  function ActorOf(i: Intent): string
  {
    if i.subject.userId.Some? then i.subject.userId.value
    else if i.subject.agentId.Some? then i.subject.agentId.value
    else if i.subject.delegatedBy.Some? then i.subject.delegatedBy.value
    else "anonymous"
  }

  function Record(db: Db, e: AuditEntry, clock: nat -> nat): Db
  {
    db.(log := Append(db.log, e, clock))
  }

  // ---------------------------------------------------------------------------
  // Audited transitions: all or nothing
  // ---------------------------------------------------------------------------

  function CreatePreview(db: Db, i: Intent, clock: nat -> nat): Effect<Intent>
  {
    if i.state != PreviewState(i.decision) then Effect(db, Err(InvalidPreviewState(i.state, PreviewState(i.decision))))
    else if KeyOf(i) in db.intents then Effect(db, Err(StorageError(AlreadyExists("mutation intent"))))
    else
      var entry := LifecycleEntry(i, IntentPreview, ActorOf(i), None, i.summary, PreviewMetadata(i), LineageOf(i, None));
      Effect(Record(db.(intents := db.intents[KeyOf(i) := i]), entry, clock), Ok(i))
  }

  /** Keep a transition and its entry together, or neither. */
  function Audited(db: Db, k: IntentKey, step: Effect<Intent>, mutation: MutationType, actor: string,
                   reason: Option<string>, clock: nat -> nat): Effect<Intent>
    requires k in db.intents
  {
    match step.result
    case Err(e) => Effect(db, Err(e))
    case Ok(after) =>
      Effect(Record(step.db, TransitionEntry(db.intents[k], after, mutation, actor, reason), clock), Ok(after))
  }

  function ReviewActor(r: Review): string { if r.actor.Some? then r.actor.value else "anonymous" }

  function ApproveAudited(db: Db, k: IntentKey, review: Review, now: nat, clock: nat -> nat): Effect<Intent>
  {
    if k !in db.intents then Effect(db, Err(IntentNotFound))
    else Audited(db, k, Approve(db, k, review, now), IntentApprove, ReviewActor(review), review.reason, clock)
  }

  function RejectAudited(db: Db, k: IntentKey, review: Review, now: nat, clock: nat -> nat): Effect<Intent>
  {
    if k !in db.intents then Effect(db, Err(IntentNotFound))
    else Audited(db, k, Reject(db, k, review, now), IntentReject, ReviewActor(review), review.reason, clock)
  }

  function ExpireAudited(db: Db, k: IntentKey, now: nat, clock: nat -> nat): Effect<Intent>
  {
    if k !in db.intents then Effect(db, Err(IntentNotFound))
    else Audited(db, k, Expire(db, k, now), IntentExpire, "system", None, clock)
  }

  /** The expiry sweep over a due list: one expiry and one entry each, in list order. */
  function SweepFrom(db: Db, scope: Scope, due: seq<Intent>, i: nat, now: nat, clock: nat -> nat): Effect<()>
    requires i <= |due|
    decreases |due| - i
  {
    if i == |due| then Effect(db, Ok(()))
    else
      var step := Expire(db, IntentKey(scope, due[i].id), now);
      match step.result
      case Err(e) => Effect(step.db, Err(e))
      case Ok(after) =>
        SweepFrom(Record(step.db, TransitionEntry(due[i], after, IntentExpire, "system", None), clock),
                  scope, due, i + 1, now, clock)
  }

  function Sweep(db: Db, scope: Scope, due: seq<Intent>, now: nat, clock: nat -> nat): Effect<()>
  {
    var r := SweepFrom(db, scope, due, 0, now, clock);
    if r.result.Err? then Effect(db, r.result) else r
  }

  // ---------------------------------------------------------------------------
  // Commit-time validation
  // ---------------------------------------------------------------------------

  datatype TokenError =
    | BadToken | TokenNotFound | TenantDatabaseMismatch | TokenExpired | TokenRejected
    | AlreadyCommitted | ApprovalRequired | Unauthorized

  datatype Dimension =
    | GrantVersion | SubjectBinding | SchemaVersion | PolicyVersion
    | PreImageVersion(key: Key, expected: nat, actual: Option<nat>)

  datatype CommitError =
    | Token(error: TokenError)
    | CommitStorage(cause: Error)
    | IntentMismatch(expectedHash: string, actualHash: string)
    | IntentStale(dimensions: seq<Dimension>)
    | AuthorizationFailed
    | CommitFailed(cause: Error)

  /** What the caller presents at commit. */
  datatype Current = Current(
    subject: Subject, schemaVersion: nat, policyVersion: nat, operationHash: string, authorized: bool)

  function ValidateState(i: Intent, now: nat): Option<TokenError>
  {
    if i.expiresAt <= now || i.state == Expired then Some(TokenExpired)
    else if i.state == Rejected then Some(TokenRejected)
    else if i.state == Committed then Some(AlreadyCommitted)
    else match i.decision
      case Deny => Some(Unauthorized)
      case NeedsApproval => if i.state != Approved then Some(ApprovalRequired) else None
      case Allow => None
  }

  /** Everything of a subject but its grant version; attributes are compared by canonical text. */
  function SubjectText(s: Subject): (Subject, string)
  {
    (s.(grantVersion := None, attributes := map[]), CanonicalText(Obj(s.attributes)))
  }

  function PreImageDimensions(db: Db, preImages: seq<PreImage>): seq<Dimension>
  {
    if preImages == [] then []
    else
      var p := preImages[0];
      var actual := if p.key in db.rows then Some(db.rows[p.key].version) else None;
      (if actual != Some(p.version) then [PreImageVersion(p.key, p.version, actual)] else [])
      + PreImageDimensions(db, preImages[1..])
  }

  function BindingDimensions(i: Intent, c: Current): seq<Dimension>
  {
    (if i.subject.grantVersion != c.subject.grantVersion then [GrantVersion] else [])
    + (if SubjectText(i.subject) != SubjectText(c.subject) then [SubjectBinding] else [])
    + (if i.schemaVersion != c.schemaVersion then [SchemaVersion] else [])
    + (if i.policyVersion != c.policyVersion then [PolicyVersion] else [])
  }

  function StaleDimensions(db: Db, i: Intent, c: Current): seq<Dimension>
  {
    BindingDimensions(i, c) + PreImageDimensions(db, i.preImages)
  }

  /** `verified` is the intent id the token signature vouches for. */
  function ValidateBindings(db: Db, scope: Scope, verified: Option<string>, c: Current, now: nat): Result<Intent, CommitError>
  {
    if verified.None? then Err(Token(BadToken)) else
    var k := IntentKey(scope, verified.value);
    if k !in db.intents then Err(Token(TokenNotFound)) else
    var i := db.intents[k];
    if i.id != verified.value || i.scope != scope then Err(Token(TokenNotFound)) else
    match ValidateState(i, now)
    case Some(e) => Err(Token(e))
    case None =>
      if i.operationHash != c.operationHash then Err(IntentMismatch(i.operationHash, c.operationHash))
      else if !c.authorized then Err(AuthorizationFailed)
      else
        var stale := StaleDimensions(db, i, c);
        if stale != [] then Err(IntentStale(stale)) else Ok(i)
  }

  function ErrorCode(e: CommitError): string
  {
    match e
    case Token(_) => "intent_token"
    case CommitStorage(_) => "intent_storage_error"
    case IntentMismatch(_, _) => "intent_mismatch"
    case IntentStale(_) => "intent_stale"
    case AuthorizationFailed => "intent_authorization_failed"
    case CommitFailed(_) => "intent_commit_failed"
  }

  /** The audit entry of a refused commit; only mismatches and stale bindings are recorded. */
  function FailureEntry(i: Intent, e: CommitError, actor: Option<string>): AuditEntry
  {
    LifecycleEntry(i, IntentCommit, if actor.Some? then actor.value else "anonymous", Some(IntentData(i)),
                   Obj(map["event" := Str("commit_validation_failed"), "error_code" := Str(ErrorCode(e)),
                           "intent" := IntentData(i)]),
                   map["event" := "commit_validation_failed", "error_code" := ErrorCode(e)], LineageOf(i, None))
  }

  // ---------------------------------------------------------------------------
  // Committing a transaction intent
  // ---------------------------------------------------------------------------

  datatype CommitRequest = CommitRequest(
    scope: Scope,
    verified: Option<string>,               // what the token signature vouches for
    tx: Tx,
    canonicalHash: Option<string>,          // caller-supplied operation hash
    current: Current,
    now: nat,
    actor: Option<string>,
    attribution: Option<Attribution>)

  /** The operation hash a request is checked against; `sha` stands for SHA-256. */
  function RequestHash(req: CommitRequest, sha: string -> string): string
  {
    if req.canonicalHash.Some? then req.canonicalHash.value else sha(OperationText(req.tx.ops))
  }

  function Presented(req: CommitRequest, sha: string -> string): Current
  {
    req.current.(operationHash := RequestHash(req, sha))
  }

  function CommitHook(k: IntentKey, expected: ApprovalState): Hook<Intent>
  {
    (db: Db) =>
      var r := SetState(db, k, expected, Committed);
      (r.db, match r.result case Ok(i) => Ok(i) case Err(_) => Err(InvalidOperation("intent state")))
  }

  function ExecutionError(e: Error): CommitError
  {
    match e
    case ConflictingVersion(expected, actual, current) =>
      IntentStale([PreImageVersion(if current.Some? then current.value.key else Key("", ""), expected, Some(actual))])
    case other => CommitFailed(other)
  }

  datatype CommitOutcome = CommitOutcome(db: Db, result: Result<(Intent, seq<Entity>), CommitError>)

  function CommitIntent(env: Env, sha: string -> string, db: Db, req: CommitRequest): CommitOutcome
  {
    match ValidateBindings(db, req.scope, req.verified, Presented(req, sha), req.now)
    case Err(e) =>
      if (e.IntentMismatch? || e.IntentStale?) && req.verified.Some? && IntentKey(req.scope, req.verified.value) in db.intents then
        CommitOutcome(Record(db, FailureEntry(db.intents[IntentKey(req.scope, req.verified.value)], e, req.actor), env.clock), Err(e))
      else CommitOutcome(db, Err(e))
    case Ok(i) =>
      match CommitExpectedState(i)
      case Err(_) => CommitOutcome(db, Err(CommitFailed(InvalidOperation("decision"))))
      case Ok(expected) =>
        var ctx := Context(req.tx.id, req.actor, req.attribution, Some(LineageOf(i, None)));
        var out := Commit(env, db, req.tx, ctx, CommitHook(IntentKey(req.scope, i.id), expected));
        match out.result
        case Err(e) => CommitOutcome(db, Err(ExecutionError(e)))
        case Ok((written, committed)) => CommitOutcome(out.db, Ok((committed, written)))
  }
}
