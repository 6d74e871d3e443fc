/** What single intent operations guarantee. */
module IntentTheorems {
  import opened Prelude
  import opened Json
  import opened CanonicalTheorems
  import opened Audit
  import opened Store
  import opened TxSpec
  import opened TxEffects
  import opened OperationBinding
  import opened IntentSpec
  import opened IntentService

  // ---------------------------------------------------------------------------
  // Legal moves
  // ---------------------------------------------------------------------------

  predicate StateOk(i: Intent)
  {
    match i.decision
    case Allow => i.state in {Unreviewed, Expired, Committed}
    case Deny => i.state in {Unreviewed, Expired}
    case NeedsApproval => i.state != Unreviewed
  }

  predicate LegalMove(d: Decision, s: ApprovalState, t: ApprovalState)
  {
    || s == t
    || (Expirable(s) && t == Expired)
    || (d == NeedsApproval && s == Pending && t in {Approved, Rejected})
    || (d == Allow && s == Unreviewed && t == Committed)
    || (d == NeedsApproval && s == Approved && t == Committed)
  }

  /** Only the state may change, and only along a legal move. */
  predicate MovesTo(before: Intent, after: Intent)
  {
    after == before.(state := after.state) && LegalMove(before.decision, before.state, after.state)
  }

  /** No intent disappears, and every one of them moves legally. */
  predicate Evolves(before: map<IntentKey, Intent>, after: map<IntentKey, Intent>)
  {
    forall k :: k in before ==> k in after && MovesTo(before[k], after[k])
  }

  predicate IntentsOk(intents: map<IntentKey, Intent>)
  {
    KeyedIntents(intents) && forall k :: k in intents ==> StateOk(intents[k])
  }

  /** A step that touches intents only, and moves them legally. */
  predicate IntentStep(before: Db, after: Db)
  {
    && after.rows == before.rows && after.links == before.links && after.log == before.log
    && Evolves(before.intents, after.intents) && IntentsOk(after.intents)
  }

  /** No intent but `k` changed, and `k` at most in its state, to one of those given. */
  predicate MovesOnly(before: map<IntentKey, Intent>, after: map<IntentKey, Intent>, k: IntentKey, to: set<ApprovalState>)
  {
    && after.Keys == before.Keys
    && (forall j :: j in before && j != k ==> after[j] == before[j])
    && (k in before ==> after[k] == before[k] || (after[k].state in to && after[k] == before[k].(state := after[k].state)))
  }

  lemma {:induction false} SetStateMoves(db: Db, k: IntentKey, expected: ApprovalState, next: ApprovalState)
    requires IntentsOk(db.intents)
    requires k in db.intents && db.intents[k].state == expected ==> LegalMove(db.intents[k].decision, expected, next)
    ensures IntentStep(db, SetState(db, k, expected, next).db)
  {
  }

  lemma {:induction false} RejectIfExpiredMoves(db: Db, k: IntentKey, now: nat, op: Operation)
    requires IntentsOk(db.intents) && k in db.intents
    ensures IntentStep(db, RejectIfExpired(db, k, db.intents[k], now, op).db)
    ensures RejectIfExpired(db, k, db.intents[k], now, op).result.Ok? ==>
              RejectIfExpired(db, k, db.intents[k], now, op).db == db && now < db.intents[k].expiresAt
  {
    var i := db.intents[k];
    assert KeyOf(i) == k;
    SetStateMoves(db, k, i.state, if Expirable(i.state) then Expired else i.state);
  }

  lemma {:induction false} ReviewMoves(db: Db, k: IntentKey, review: Review, now: nat, op: Operation, to: ApprovalState)
    requires IntentsOk(db.intents) && to in {Approved, Rejected}
    ensures IntentStep(db, ReviewTo(db, k, review, now, op, to).db)
  {
    if k in db.intents {
      RejectIfExpiredMoves(db, k, now, op);
      if db.intents[k].decision == NeedsApproval { SetStateMoves(db, k, Pending, to); }
    }
  }

  lemma {:induction false} ExpireMoves(db: Db, k: IntentKey, now: nat)
    requires IntentsOk(db.intents)
    ensures IntentStep(db, Expire(db, k, now).db)
  {
    if k in db.intents && Expirable(db.intents[k].state) { SetStateMoves(db, k, db.intents[k].state, Expired); }
  }

  lemma {:induction false} SetStateOnly(db: Db, k: IntentKey, expected: ApprovalState, next: ApprovalState)
    ensures MovesOnly(db.intents, SetState(db, k, expected, next).db.intents, k, {next})
  {
  }

  lemma {:induction false} RejectIfExpiredOnly(db: Db, k: IntentKey, now: nat, op: Operation)
    requires k in db.intents && KeyOf(db.intents[k]) == k
    ensures MovesOnly(db.intents, RejectIfExpired(db, k, db.intents[k], now, op).db.intents, k, {Expired})
    ensures RejectIfExpired(db, k, db.intents[k], now, op).result.Ok? ==>
              RejectIfExpired(db, k, db.intents[k], now, op).db == db && now < db.intents[k].expiresAt
  {
    SetStateOnly(db, k, db.intents[k].state, Expired);
  }

  lemma {:induction false} MovesWider(before: map<IntentKey, Intent>, after: map<IntentKey, Intent>, k: IntentKey,
                                      to: set<ApprovalState>, wider: set<ApprovalState>)
    requires MovesOnly(before, after, k, to) && to <= wider
    ensures MovesOnly(before, after, k, wider)
  {
  }

  /**
   A review changes at most the state of the reviewed intent: to the asked state, which takes
   a pending intent that needs approval before its deadline, or to Expired.
   */
  lemma {:induction false} ReviewMovesOnly(db: Db, k: IntentKey, review: Review, now: nat, op: Operation, to: ApprovalState)
    requires IntentsOk(db.intents)
    ensures var r := ReviewTo(db, k, review, now, op, to);
            && MovesOnly(db.intents, r.db.intents, k, {to, Expired})
            && (r.result.Ok? ==> k in db.intents && db.intents[k].state == Pending && db.intents[k].decision == NeedsApproval &&
                                 now < db.intents[k].expiresAt && r.db.intents[k].state == to)
  {
    if k in db.intents {
      assert KeyOf(db.intents[k]) == k;
      RejectIfExpiredOnly(db, k, now, op);
      var live := RejectIfExpired(db, k, db.intents[k], now, op);
      MovesWider(db.intents, live.db.intents, k, {Expired}, {to, Expired});
      if live.result.Ok? {
        SetStateOnly(db, k, Pending, to);
        MovesWider(db.intents, SetState(db, k, Pending, to).db.intents, k, {to}, {to, Expired});
      }
    }
  }

  /** An expiry changes at most that intent, to Expired, and succeeds exactly for a due, expirable one. */
  lemma {:induction false} ExpireMovesOnly(db: Db, k: IntentKey, now: nat)
    ensures var r := Expire(db, k, now);
            && MovesOnly(db.intents, r.db.intents, k, {Expired})
            && (r.result.Ok? <==> k in db.intents && Due(db.intents[k], now) && Expirable(db.intents[k].state))
            && (r.result.Ok? ==> r.db.intents[k].state == Expired)
  {
    if k in db.intents { SetStateOnly(db, k, db.intents[k].state, Expired); }
  }

  /** Marking committed moves legally and never succeeds at or after the deadline. */
  lemma {:induction false} MarkCommittedMoves(db: Db, k: IntentKey, hash: Option<string>, now: nat)
    requires IntentsOk(db.intents)
    ensures IntentStep(db, MarkCommitted(db, k, hash, now).db)
    ensures MarkCommitted(db, k, hash, now).result.Ok? ==>
              k in db.intents && now < db.intents[k].expiresAt &&
              (hash.Some? ==> db.intents[k].operationHash == hash.value)
  {
    if k in db.intents {
      RejectIfExpiredMoves(db, k, now, DoCommit);
      var i := db.intents[k];
      match CommitExpectedState(i)
      case Ok(expected) => SetStateMoves(db, k, expected, Committed);
      case Err(_) =>
    }
  }

  // ---------------------------------------------------------------------------
  // Commit-time validation
  // ---------------------------------------------------------------------------

  lemma {:induction false} PreImagesCurrent(db: Db, ps: seq<PreImage>)
    ensures PreImageDimensions(db, ps) == [] <==>
            forall i :: 0 <= i < |ps| ==> ps[i].key in db.rows && db.rows[ps[i].key].version == ps[i].version
  {
    if ps != [] {
      PreImagesCurrent(db, ps[1..]);
      if forall i :: 0 <= i < |ps| ==> ps[i].key in db.rows && db.rows[ps[i].key].version == ps[i].version {
        forall i | 0 <= i < |ps[1..]|
          ensures ps[1..][i].key in db.rows && db.rows[ps[1..][i].key].version == ps[1..][i].version
        {
          assert ps[1..][i] == ps[i + 1];
        }
      }
      if PreImageDimensions(db, ps) == [] {
        forall i | 0 <= i < |ps| ensures ps[i].key in db.rows && db.rows[ps[i].key].version == ps[i].version {
          if i > 0 { assert ps[i] == ps[1..][i - 1]; }
        }
      }
    }
  }

  lemma {:induction false} SubjectsAgree(a: Subject, b: Subject)
    requires ValidJson(Obj(a.attributes)) && ValidJson(Obj(b.attributes))
    ensures a.grantVersion == b.grantVersion && SubjectText(a) == SubjectText(b) <==> a == b
  {
    CanonicalTextInjective(Obj(a.attributes), Obj(b.attributes));
    if a.grantVersion == b.grantVersion && SubjectText(a) == SubjectText(b) {
      assert a.(grantVersion := None, attributes := map[]) == b.(grantVersion := None, attributes := map[]);
      assert a == a.(grantVersion := None, attributes := map[]).(grantVersion := a.grantVersion, attributes := a.attributes);
      assert b == b.(grantVersion := None, attributes := map[]).(grantVersion := b.grantVersion, attributes := b.attributes);
    }
  }

  /** Nothing is stale exactly when every binding still holds. */
  lemma {:induction false} NothingStale(db: Db, i: Intent, c: Current)
    requires ValidJson(Obj(i.subject.attributes)) && ValidJson(Obj(c.subject.attributes))
    ensures StaleDimensions(db, i, c) == [] <==>
            && i.subject == c.subject && i.schemaVersion == c.schemaVersion && i.policyVersion == c.policyVersion
            && forall p :: p in i.preImages ==> p.key in db.rows && db.rows[p.key].version == p.version
  {
    PreImagesCurrent(db, i.preImages);
    SubjectsAgree(i.subject, c.subject);
  }

  // ---------------------------------------------------------------------------
  // Committing an intent
  // ---------------------------------------------------------------------------

  lemma {:induction false} CommitHookQuiet(k: IntentKey, expected: ApprovalState)
    ensures Quiet(CommitHook(k, expected))
  {
    forall d: Db ensures HookQuietOn(CommitHook(k, expected)(d).0, d) { CommitHookQuietOn(k, expected, d); }
  }

  predicate HookQuietOn(after: Db, before: Db)
  {
    after.rows == before.rows && after.links == before.links && after.log == before.log
  }

  lemma {:induction false} CommitHookQuietOn(k: IntentKey, expected: ApprovalState, d: Db)
    ensures HookQuietOn(CommitHook(k, expected)(d).0, d)
  {
  }

  /** The commit of an intent: what it found, what it did, all in one step. */
  ghost predicate ConsumedAtomically(env: Env, sha: string -> string, db: Db, req: CommitRequest, after: Db)
  {
    && req.verified.Some?
    && var k := IntentKey(req.scope, req.verified.value);
    && k in db.intents
    && var i := db.intents[k];
    && ((i.decision == Allow && i.state == Unreviewed) || (i.decision == NeedsApproval && i.state == Approved))
    && req.now < i.expiresAt && i.operationHash == RequestHash(req, sha)
    && StaleDimensions(db, i, Presented(req, sha)) == []
    && after.intents == db.intents[k := i.(state := Committed)]
    && var ctx := Context(req.tx.id, req.actor, req.attribution, Some(LineageOf(i, None)));
    && ExecutedInto(env, db, req.tx, ctx, after)
  }

  /** All writes of the transaction are in `after`, with one entry each. */
  ghost predicate ExecutedInto(env: Env, db: Db, tx: Tx, ctx: Context, after: Db)
  {
    && Execute(env, db, tx, ctx).Ok?
    && after.rows == Execute(env, db, tx, ctx).value.db.rows && after.links == Execute(env, db, tx, ctx).value.db.links
    && LogsEveryOp(db, tx, ctx, after)
  }

  lemma {:induction false} CommitIntentAtomic(env: Env, sha: string -> string, db: Db, req: CommitRequest)
    requires ValidTx(req.tx) && KeyedRows(db.rows) && IntentsOk(db.intents)
    ensures var out := CommitIntent(env, sha, db, req);
            if out.result.Ok? then ConsumedAtomically(env, sha, db, req, out.db)
            else out.db == db.(log := out.db.log)
  {
    var out := CommitIntent(env, sha, db, req);
    match ValidateBindings(db, req.scope, req.verified, Presented(req, sha), req.now)
    case Err(_) =>
    case Ok(i) =>
      match CommitExpectedState(i)
      case Err(_) =>
      case Ok(expected) => CommitIntentRun(env, sha, db, req, i, expected);
  }

  /** The transaction with the state change as its hook. */
  lemma {:induction false} HookedCommit(env: Env, db: Db, tx: Tx, ctx: Context, k: IntentKey, expected: ApprovalState)
    requires ValidTx(tx) && KeyedRows(db.rows)
    ensures var out := Commit(env, db, tx, ctx, CommitHook(k, expected));
            if out.result.Err? then out.db == db
            else k in db.intents && db.intents[k].state == expected && ExecutedInto(env, db, tx, ctx, out.db) &&
                 out.db.intents == db.intents[k := db.intents[k].(state := Committed)]
  {
    CommitHookQuiet(k, expected);
    CommitLogsEveryOp(env, db, tx, ctx, CommitHook(k, expected));
    if Execute(env, db, tx, ctx).Ok? {
      ExecuteEntries(env, db, tx, ctx);
      CommitHookQuietOn(k, expected, Logged(env, Execute(env, db, tx, ctx).value));
    }
  }

  lemma {:induction false} CommitIntentRun(env: Env, sha: string -> string, db: Db, req: CommitRequest, i: Intent, expected: ApprovalState)
    requires ValidTx(req.tx) && KeyedRows(db.rows) && IntentsOk(db.intents)
    requires ValidateBindings(db, req.scope, req.verified, Presented(req, sha), req.now) == Ok(i)
    requires CommitExpectedState(i) == Ok(expected)
    ensures var out := CommitIntent(env, sha, db, req);
            if out.result.Ok? then ConsumedAtomically(env, sha, db, req, out.db) else out.db == db
  {
    var ctx := Context(req.tx.id, req.actor, req.attribution, Some(LineageOf(i, None)));
    HookedCommit(env, db, req.tx, ctx, IntentKey(req.scope, i.id), expected);
  }

  ghost predicate Injective(sha: string -> string)
  {
    forall s, t :: sha(s) == sha(t) ==> s == t
  }

  /** The same operations in the same order: kinds, targets, data, expected versions and created-link metadata. */
  predicate SameList(a: seq<StagedOp>, b: seq<StagedOp>)
  {
    |a| == |b| && forall i :: 0 <= i < |a| ==> SameStaged(a[i], b[i])
  }

  ghost predicate ValidOps(ops: seq<StagedOp>)
  {
    forall i :: 0 <= i < |ops| ==> ValidOp(ops[i])
  }

  /** The commit succeeded for an intent bound to the hash of `previewed`. */
  ghost predicate CommittedAs(env: Env, sha: string -> string, db: Db, req: CommitRequest, previewed: seq<StagedOp>)
  {
    && ValidTx(req.tx) && KeyedRows(db.rows) && IntentsOk(db.intents) && CommitIntent(env, sha, db, req).result.Ok?
    && req.verified.Some? && IntentKey(req.scope, req.verified.value) in db.intents
    && db.intents[IntentKey(req.scope, req.verified.value)].operationHash == sha(OperationText(previewed))
  }

  /**
   A commit runs the previewed operations exactly when the hash it was checked against is
   the hash of the staged list.
   */
  lemma {:induction false} CommitsPreviewedExactly(env: Env, sha: string -> string, db: Db, req: CommitRequest, previewed: seq<StagedOp>)
    requires CommittedAs(env, sha, db, req, previewed) && Injective(sha) && ValidOps(previewed) && ValidOps(req.tx.ops)
    ensures SameList(req.tx.ops, previewed) <==> RequestHash(req, sha) == sha(OperationText(req.tx.ops))
  {
    CommitIntentAtomic(env, sha, db, req);
    OperationTextBinds(req.tx.ops, previewed);
  }

  /** So a hash computed from the staged list, by the service or by the caller, binds the commit to the preview. */
  lemma {:induction false} CommitsOnlyWhatWasPreviewed(env: Env, sha: string -> string, db: Db, req: CommitRequest, previewed: seq<StagedOp>)
    requires CommittedAs(env, sha, db, req, previewed) && Injective(sha) && ValidOps(previewed) && ValidOps(req.tx.ops)
    requires req.canonicalHash.None? || req.canonicalHash == Some(sha(OperationText(req.tx.ops)))
    ensures SameList(req.tx.ops, previewed)
  {
    CommitsPreviewedExactly(env, sha, db, req, previewed);
  }

  /** With the intent's own hash supplied, any transaction that executes is committed under the intent. */
  lemma {:induction false} SuppliedHashCommits(env: Env, sha: string -> string, db: Db, req: CommitRequest, i: Intent)
    requires ValidTx(req.tx) && KeyedRows(db.rows) && req.verified == Some(i.id) && req.scope == i.scope
    requires KeyOf(i) in db.intents && db.intents[KeyOf(i)] == i && i.decision == Allow && i.state == Unreviewed && req.now < i.expiresAt
    requires req.canonicalHash == Some(i.operationHash) && req.current.authorized && StaleDimensions(db, i, Presented(req, sha)) == []
    requires Execute(env, db, req.tx, Context(req.tx.id, req.actor, req.attribution, Some(LineageOf(i, None)))).Ok?
    ensures CommitIntent(env, sha, db, req).result.Ok?
  {
    var ctx := Context(req.tx.id, req.actor, req.attribution, Some(LineageOf(i, None)));
    ExecuteEntries(env, db, req.tx, ctx);
    assert ValidateBindings(db, req.scope, req.verified, Presented(req, sha), req.now) == Ok(i);
    HookRuns(env, db, req.tx, ctx, KeyOf(i), Unreviewed);
  }

  lemma {:induction false} HookRuns(env: Env, db: Db, tx: Tx, ctx: Context, k: IntentKey, expected: ApprovalState)
    requires Execute(env, db, tx, ctx).Ok? && Execute(env, db, tx, ctx).value.db.intents == db.intents
    requires k in db.intents && db.intents[k].state == expected
    ensures Commit(env, db, tx, ctx, CommitHook(k, expected)).result.Ok?
  {
  }

  const SCOPE := Scope("t", "d")
  const SUBJECT := Subject(None, None, None, None, None, None, map[])

  function CreateNull(id: string): StagedOp
  {
    EntityOp(WriteOp(Entity(Key("c", id), 1, Null), 0, None, EntityCreate, PresentEntity))
  }

  function BoundTo(hash: string): Intent
  {
    Intent("i", SCOPE, SUBJECT, 1, 1, hash, [], Allow, Unreviewed, false, 10, Null)
  }

  lemma {:induction false} CreateExecutes(env: Env, db: Db, id: string, tx: Tx, ctx: Context)
    requires db.rows == map[] && tx == Tx("tx", [CreateNull(id)], [], [], Snapshot) && env.accepts("c", Null)
    ensures Execute(env, db, tx, ctx).Ok?
  {
    var p := Progress(db, [], []);
    assert CheckFrom(env, db, tx.ops, 1) == None;
    assert ApplyFrom(p, tx.ops, 0, ctx) == ApplyFrom(ApplyOp(p, tx.ops[0], ctx).value, tx.ops, 1, ctx);
  }

  /** Witness: the preview was to create one row, the commit creates another, and it succeeds. */
  lemma {:induction false} SuppliedHashCommitsOther(env: Env, sha: string -> string)
    requires env.accepts("c", Null)
    ensures var previewed := [CreateNull("x")];
            var hash := sha(OperationText(previewed));
            var db := EMPTY_DB.(intents := map[IntentKey(SCOPE, "i") := BoundTo(hash)]);
            var req := CommitRequest(SCOPE, Some("i"), Tx("tx", [CreateNull("y")], [], [], Snapshot), Some(hash),
                                     Current(SUBJECT, 1, 1, hash, true), 0, None, None);
            CommitIntent(env, sha, db, req).result.Ok? && !SameList(req.tx.ops, previewed)
  {
    var hash := sha(OperationText([CreateNull("x")]));
    var i := BoundTo(hash);
    var db := EMPTY_DB.(intents := map[IntentKey(SCOPE, "i") := i]);
    var tx := Tx("tx", [CreateNull("y")], [], [], Snapshot);
    var req := CommitRequest(SCOPE, Some("i"), tx, Some(hash), Current(SUBJECT, 1, 1, hash, true), 0, None, None);
    CreateExecutes(env, db, "y", tx, Context("tx", None, None, Some(LineageOf(i, None))));
    FreshBindings(db, hash);
    SuppliedHashCommits(env, sha, db, req, i);
    assert CreateNull("y").op.entity.key != CreateNull("x").op.entity.key by { assert "y"[0] != "x"[0]; }
  }

  lemma {:induction false} FreshBindings(db: Db, hash: string)
    ensures StaleDimensions(db, BoundTo(hash), Current(SUBJECT, 1, 1, hash, true)) == []
  {
  }

  // ---------------------------------------------------------------------------
  // Audited transitions and the sweep
  // ---------------------------------------------------------------------------

  /** One entry, holding the true state before and after. */
  ghost predicate RecordsTransition(before: Db, after: Db, k: IntentKey)
  {
    && k in before.intents && k in after.intents
    && |after.log.entries| == |before.log.entries| + 1
    && after.log.entries[..|before.log.entries|] == before.log.entries
    && var e := after.log.entries[|before.log.entries|];
    && e.dataBefore == Some(IntentData(before.intents[k])) && e.dataAfter == Some(IntentData(after.intents[k]))
    && e.key == Key(INTENT_COLLECTION, k.id)
    && e.lineage.Some? && e.lineage.value.intentId == k.id
  }

  lemma {:induction false} AuditedRecords(db: Db, k: IntentKey, step: Effect<Intent>, mutation: MutationType, actor: string,
                                         reason: Option<string>, clock: nat -> nat)
    requires k in db.intents && IntentsOk(db.intents) && IntentStep(db, step.db)
    requires step.result.Ok? ==> k in step.db.intents && step.db.intents[k] == step.result.value
    ensures var r := Audited(db, k, step, mutation, actor, reason, clock);
            if r.result.Err? then r.db == db else RecordsTransition(db, r.db, k)
  {
  }

  /** Approve, reject and expire with audit: unchanged on error, one true entry on success. */
  lemma {:induction false} AuditedTransitions(db: Db, k: IntentKey, review: Review, now: nat, clock: nat -> nat)
    requires IntentsOk(db.intents)
    ensures var r := ApproveAudited(db, k, review, now, clock); if r.result.Err? then r.db == db else RecordsTransition(db, r.db, k)
    ensures var r := RejectAudited(db, k, review, now, clock); if r.result.Err? then r.db == db else RecordsTransition(db, r.db, k)
    ensures var r := ExpireAudited(db, k, now, clock); if r.result.Err? then r.db == db else RecordsTransition(db, r.db, k)
  {
    if k in db.intents {
      ReviewMoves(db, k, review, now, DoApprove, Approved);
      ReviewMoves(db, k, review, now, DoReject, Rejected);
      ExpireMoves(db, k, now);
      AuditedRecords(db, k, Approve(db, k, review, now), IntentApprove, ReviewActor(review), review.reason, clock);
      AuditedRecords(db, k, Reject(db, k, review, now), IntentReject, ReviewActor(review), review.reason, clock);
      AuditedRecords(db, k, Expire(db, k, now), IntentExpire, "system", None, clock);
    }
  }

  /** The intents after expiring `due[..i]`. */
  ghost predicate SweptTo(before: Db, after: Db, scope: Scope, due: seq<Intent>, i: nat)
    requires i <= |due|
  {
    && after.rows == before.rows && after.links == before.links
    && after.intents.Keys == before.intents.Keys
    && (forall k :: k in before.intents ==>
          after.intents[k] == if exists j :: 0 <= j < i && KeyOf(due[j]) == k
                              then before.intents[k].(state := Expired) else before.intents[k])
    && |after.log.entries| == |before.log.entries| + i
    && after.log.entries[..|before.log.entries|] == before.log.entries
    && forall j :: 0 <= j < i ==> SweepEntry(after.log.entries[|before.log.entries| + j], due[j])
  }

  predicate SweepEntry(e: AuditEntry, i: Intent)
  {
    && e.mutation == IntentExpire && e.key == Key(INTENT_COLLECTION, i.id)
    && e.dataBefore == Some(IntentData(i)) && e.dataAfter == Some(IntentData(i.(state := Expired)))
  }

  lemma {:induction false} DueDistinct(intents: map<IntentKey, Intent>, scope: Scope, now: nat, list: seq<Intent>, i: nat, j: nat)
    requires InExpiryOrder(list) && i < j < |list|
    requires DueMember(intents, scope, now, list[i]) && DueMember(intents, scope, now, list[j])
    ensures KeyOf(list[i]) != KeyOf(list[j])
  {
    BeforeDistinct(list[i], list[j]);
  }

  ghost predicate AllDue(intents: map<IntentKey, Intent>, scope: Scope, now: nat, due: seq<Intent>)
  {
    InExpiryOrder(due) && forall j :: 0 <= j < |due| ==> DueMember(intents, scope, now, due[j])
  }

  function SweptOne(db: Db, i: Intent, clock: nat -> nat): Db
  {
    Record(db.(intents := db.intents[KeyOf(i) := i.(state := Expired)]),
           TransitionEntry(i, i.(state := Expired), IntentExpire, "system", None), clock)
  }

  lemma {:induction false} SweepStepRuns(before: Db, cur: Db, scope: Scope, due: seq<Intent>, i: nat, now: nat, clock: nat -> nat)
    requires AllDue(before.intents, scope, now, due) && i < |due| && SweptTo(before, cur, scope, due, i)
    ensures SweepFrom(cur, scope, due, i, now, clock) == SweepFrom(SweptOne(cur, due[i], clock), scope, due, i + 1, now, clock)
  {
    var k := KeyOf(due[i]);
    forall j | 0 <= j < i ensures KeyOf(due[j]) != k {
      DueDistinct(before.intents, scope, now, due, j, i);
    }
    assert DueMember(before.intents, scope, now, due[i]);
    assert cur.intents[k] == due[i] && k == IntentKey(scope, due[i].id);
  }

  lemma {:induction false} SweptOneIntents(before: Db, cur: Db, scope: Scope, due: seq<Intent>, i: nat, now: nat, clock: nat -> nat)
    requires AllDue(before.intents, scope, now, due) && i < |due| && SweptTo(before, cur, scope, due, i)
    ensures var next := SweptOne(cur, due[i], clock);
            next.intents.Keys == before.intents.Keys &&
            forall k :: k in before.intents ==>
              next.intents[k] == if exists j :: 0 <= j < i + 1 && KeyOf(due[j]) == k
                                 then before.intents[k].(state := Expired) else before.intents[k]
  {
    var next := SweptOne(cur, due[i], clock);
    var x := KeyOf(due[i]);
    assert DueMember(before.intents, scope, now, due[i]);
    forall k | k in before.intents
      ensures next.intents[k] == if exists j :: 0 <= j < i + 1 && KeyOf(due[j]) == k
                                 then before.intents[k].(state := Expired) else before.intents[k]
    {
      if k == x {
        assert 0 <= i < i + 1 && KeyOf(due[i]) == k;
      } else {
        assert next.intents[k] == cur.intents[k];
      }
    }
  }

  lemma {:induction false} SweptOneLog(before: Db, cur: Db, scope: Scope, due: seq<Intent>, i: nat, clock: nat -> nat)
    requires i < |due| && SweptTo(before, cur, scope, due, i)
    ensures var next := SweptOne(cur, due[i], clock);
            && |next.log.entries| == |before.log.entries| + (i + 1)
            && next.log.entries[..|before.log.entries|] == before.log.entries
            && forall j :: 0 <= j < i + 1 ==> SweepEntry(next.log.entries[|before.log.entries| + j], due[j])
  {
    var next := SweptOne(cur, due[i], clock);
    var n := |before.log.entries|;
    assert next.log.entries[..|cur.log.entries|] == cur.log.entries;
    forall j | 0 <= j < i + 1 ensures SweepEntry(next.log.entries[n + j], due[j]) {
      if j < i { assert next.log.entries[n + j] == cur.log.entries[n + j]; }
    }
    assert next.log.entries[..n] == cur.log.entries[..n];
  }

  lemma {:induction false} SweepRuns(before: Db, cur: Db, scope: Scope, due: seq<Intent>, i: nat, now: nat, clock: nat -> nat)
    requires AllDue(before.intents, scope, now, due) && i <= |due| && SweptTo(before, cur, scope, due, i)
    ensures SweepFrom(cur, scope, due, i, now, clock).result.Ok?
    ensures SweptTo(before, SweepFrom(cur, scope, due, i, now, clock).db, scope, due, |due|)
    decreases |due| - i
  {
    if i < |due| {
      SweepStepRuns(before, cur, scope, due, i, now, clock);
      SweptOneIntents(before, cur, scope, due, i, now, clock);
      SweptOneLog(before, cur, scope, due, i, clock);
      SweepRuns(before, SweptOne(cur, due[i], clock), scope, due, i + 1, now, clock);
    }
  }

  /** Sweeping any initial part of a due list expires exactly those intents, with one true entry each. */
  lemma {:induction false} SweepExpiresExactly(db: Db, scope: Scope, due: seq<Intent>, now: nat, clock: nat -> nat)
    requires AllDue(db.intents, scope, now, due)
    ensures Sweep(db, scope, due, now, clock).result.Ok?
    ensures SweptTo(db, Sweep(db, scope, due, now, clock).db, scope, due, |due|)
  {
    SweepRuns(db, db, scope, due, 0, now, clock);
  }

  /** An unlimited sweep leaves no due expirable intent in its scope. */
  lemma {:induction false} SweepLeavesNothingDue(db: Db, scope: Scope, due: seq<Intent>, now: nat, clock: nat -> nat, k: IntentKey)
    requires KeyedIntents(db.intents) && IsDueList(db.intents, scope, now, due)
    requires k in Sweep(db, scope, due, now, clock).db.intents && k.scope == scope
    ensures var i := Sweep(db, scope, due, now, clock).db.intents[k]; !(Due(i, now) && Expirable(i.state))
  {
    forall j | 0 <= j < |due| ensures DueMember(db.intents, scope, now, due[j]) { assert due[j] in due; }
    SweepExpiresExactly(db, scope, due, now, clock);
    var i := db.intents[k];
    if Due(i, now) && Expirable(i.state) {
      assert DueMember(db.intents, scope, now, i);
      var j :| 0 <= j < |due| && due[j] == i;
      assert KeyOf(due[j]) == k;
    }
  }
}
