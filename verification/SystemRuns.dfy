/** Whole runs: transactions and intent calls in any order, with any clock. */
module SystemRuns {
  import opened Prelude
  import opened Audit
  import opened Store
  import opened TxSpec
  import opened TxEffects
  import opened Versions
  import opened IntentSpec
  import opened IntentService
  import opened IntentTheorems

  /**
   One call.  A call that fails on a storage fault leaves the state alone, so it is
   simply absent from a run; so is an audited call whose `commit_tx` failed, once its
   open transaction has been aborted.  The unaudited sweep is a sequence of `ExpireCall`s.
   */
  datatype Call =
    | TxCall(env: Env, tx: Tx, actor: Option<string>, attribution: Option<Attribution>)
    | PreviewCall(intent: Intent, clock: nat -> nat)
    | ApproveCall(key: IntentKey, review: Review, now: nat)
    | RejectCall(key: IntentKey, review: Review, now: nat)
    | ExpireCall(key: IntentKey, now: nat)
    | ApproveAuditedCall(key: IntentKey, review: Review, now: nat, clock: nat -> nat)
    | RejectAuditedCall(key: IntentKey, review: Review, now: nat, clock: nat -> nat)
    | ExpireAuditedCall(key: IntentKey, now: nat, clock: nat -> nat)
    | SweepCall(scope: Scope, due: seq<Intent>, now: nat, clock: nat -> nat)
    | MarkCall(key: IntentKey, hash: Option<string>, now: nat)
    | CommitCall(env: Env, sha: string -> string, req: CommitRequest)

  predicate ValidCall(c: Call)
  {
    (c.TxCall? ==> ValidTx(c.tx)) && (c.CommitCall? ==> ValidTx(c.req.tx))
  }

  function Next(db: Db, c: Call): Db
  {
    match c
    case TxCall(env, tx, actor, attribution) => Commit(env, db, tx, Context(tx.id, actor, attribution, None), NoHook).db
    case PreviewCall(i, clock) => CreatePreview(db, i, clock).db
    case ApproveCall(k, review, now) => Approve(db, k, review, now).db
    case RejectCall(k, review, now) => Reject(db, k, review, now).db
    case ExpireCall(k, now) => Expire(db, k, now).db
    case ApproveAuditedCall(k, review, now, clock) => ApproveAudited(db, k, review, now, clock).db
    case RejectAuditedCall(k, review, now, clock) => RejectAudited(db, k, review, now, clock).db
    case ExpireAuditedCall(k, now, clock) => ExpireAudited(db, k, now, clock).db
    case SweepCall(scope, due, now, clock) => Sweep(db, scope, due, now, clock).db
    case MarkCall(k, hash, now) => MarkCommitted(db, k, hash, now).db
    case CommitCall(env, sha, req) => CommitIntent(env, sha, db, req).db
  }

  function Run(calls: seq<Call>): Db
    decreases |calls|
  {
    if calls == [] then EMPTY_DB else Next(Run(calls[..|calls| - 1]), calls[|calls| - 1])
  }

  predicate ValidRun(calls: seq<Call>)
  {
    forall i :: 0 <= i < |calls| ==> ValidCall(calls[i])
  }

  lemma {:induction false} RunNext(calls: seq<Call>, i: nat)
    requires i < |calls|
    ensures Run(calls[..i + 1]) == Next(Run(calls[..i]), calls[i])
  {
    assert calls[..i + 1][..i] == calls[..i];
  }

  // ---------------------------------------------------------------------------
  // What every call keeps
  // ---------------------------------------------------------------------------

  /** The log explains the rows and chains the versions; intents are in legal states. */
  ghost predicate Sound(db: Db)
  {
    && KeyedRows(db.rows) && IntentsOk(db.intents)
    && Reconstructs(db) && Chained(map[], db.log.entries) && ValidLog(db.log)
  }

  predicate IntentEntry(e: AuditEntry)
  {
    e.mutation in {IntentPreview, IntentApprove, IntentReject, IntentExpire, IntentCommit}
  }

  /** Recording an intent event says nothing about rows. */
  lemma {:induction false} RecordKeepsSound(db: Db, e: AuditEntry, clock: nat -> nat)
    requires Sound(db) && IntentEntry(e)
    ensures Sound(Record(db, e, clock))
  {
    var stored := Append(db.log, e, clock).entries[|db.log.entries|];
    FoldSnoc(map[], db.log.entries, stored);
    ChainedSnoc(map[], db.log.entries, stored);
  }

  lemma {:induction false} IntentStepKeepsSound(db: Db, after: Db)
    requires Sound(db) && IntentStep(db, after)
    ensures Sound(after)
  {
  }

  lemma {:induction false} TxKeepsSound(env: Env, db: Db, tx: Tx, ctx: Context)
    requires Sound(db) && ValidTx(tx)
    ensures var out := Commit(env, db, tx, ctx, NoHook).db; Sound(out) && out.intents == db.intents
  {
    CommitReconstructs(env, db, tx, ctx, NoHook);
    CommitChains(env, db, tx, ctx, NoHook);
    if Execute(env, db, tx, ctx).Ok? {
      ExecuteEntries(env, db, tx, ctx);
      AppendAllValid(db.log, Execute(env, db, tx, ctx).value.entries, env.clock);
    }
  }

  lemma {:induction false} AuditedKeepsSound(db: Db, k: IntentKey, step: Effect<Intent>, mutation: MutationType, actor: string,
                                            reason: Option<string>, clock: nat -> nat)
    requires Sound(db) && k in db.intents && IntentStep(db, step.db)
    requires mutation in {IntentApprove, IntentReject, IntentExpire}
    ensures var r := Audited(db, k, step, mutation, actor, reason, clock).db;
            Sound(r) && Evolves(db.intents, r.intents)
  {
    match step.result
    case Err(_) =>
    case Ok(after) =>
      IntentStepKeepsSound(db, step.db);
      RecordKeepsSound(step.db, TransitionEntry(db.intents[k], after, mutation, actor, reason), clock);
  }

  /** Some intents expired, nothing else happened to them. */
  predicate OnlyExpires(before: map<IntentKey, Intent>, after: map<IntentKey, Intent>)
  {
    forall k :: k in before ==>
      k in after && (after[k] == before[k] || (Expirable(before[k].state) && after[k] == before[k].(state := Expired)))
  }

  lemma {:induction false} ExpireOnlyExpires(db: Db, k: IntentKey, now: nat)
    ensures OnlyExpires(db.intents, Expire(db, k, now).db.intents)
  {
  }

  /** Sound, and reached from `start` by expiring intents and recording intent events only. */
  ghost predicate Swept(start: Db, db: Db)
  {
    Sound(db) && OnlyExpires(start.intents, db.intents) && AddsQuietly(start.log, db.log)
  }

  lemma {:induction false} ExpireSwept(start: Db, db: Db, k: IntentKey, now: nat)
    requires Swept(start, db)
    ensures Swept(start, Expire(db, k, now).db)
  {
    ExpireMoves(db, k, now);
    ExpireOnlyExpires(db, k, now);
    IntentStepKeepsSound(db, Expire(db, k, now).db);
  }

  lemma {:induction false} RecordSwept(start: Db, db: Db, e: AuditEntry, clock: nat -> nat)
    requires Swept(start, db) && IntentEntry(e)
    ensures Swept(start, Record(db, e, clock))
  {
    RecordKeepsSound(db, e, clock);
    RecordAddsQuietly(start.log, db, e, clock);
  }

  lemma {:induction false} SweepKeepsSound(start: Db, db: Db, scope: Scope, due: seq<Intent>, i: nat, now: nat, clock: nat -> nat)
    requires i <= |due| && Swept(start, db)
    ensures Swept(start, SweepFrom(db, scope, due, i, now, clock).db)
    decreases |due| - i
  {
    if i < |due| {
      var k := IntentKey(scope, due[i].id);
      var step := Expire(db, k, now);
      ExpireSwept(start, db, k, now);
      if step.result.Ok? {
        var entry := TransitionEntry(due[i], step.result.value, IntentExpire, "system", None);
        RecordSwept(start, step.db, entry, clock);
        SweepKeepsSound(start, Record(step.db, entry, clock), scope, due, i + 1, now, clock);
      }
    }
  }

  // ---------------------------------------------------------------------------
  // Lineage in the log
  // ---------------------------------------------------------------------------

  /** The log grew by intent events and by writes that belong to no intent. */
  ghost predicate AddsQuietly(before: Log, after: Log)
  {
    && |before.entries| <= |after.entries| && after.entries[..|before.entries|] == before.entries
    && forall i :: |before.entries| <= i < |after.entries| ==>
         IntentEntry(after.entries[i]) || after.entries[i].lineage.None?
  }

  lemma {:induction false} RecordAddsQuietly(before: Log, db: Db, e: AuditEntry, clock: nat -> nat)
    requires IntentEntry(e) && AddsQuietly(before, db.log)
    ensures AddsQuietly(before, Record(db, e, clock).log)
  {
    var after := Record(db, e, clock).log;
    assert after.entries[..|before.entries|] == db.log.entries[..|before.entries|];
  }

  /** A committed write made on behalf of some intent. */
  predicate Carries(e: AuditEntry)
  {
    !IntentEntry(e) && e.lineage.Some?
  }

  /** The one transaction of each committed intent that wrote something. */
  type Owners = map<IntentKey, string>

  ghost predicate OwnedWrite(owners: Owners, e: AuditEntry)
    requires e.lineage.Some?
  {
    exists k :: k in owners && k.id == e.lineage.value.intentId && e.transactionId == Some(owners[k])
  }

  /** Every write made for an intent belongs to the one transaction of a committed intent of that id. */
  ghost predicate Accounts(db: Db, owners: Owners)
  {
    && (forall k :: k in owners ==> k in db.intents && db.intents[k].state == Committed)
    && (forall i :: 0 <= i < |db.log.entries| && Carries(db.log.entries[i]) ==> OwnedWrite(owners, db.log.entries[i]))
  }

  lemma {:induction false} QuietKeepsAccounts(before: Db, after: Db, owners: Owners)
    requires AddsQuietly(before.log, after.log) && Evolves(before.intents, after.intents) && Accounts(before, owners)
    ensures Accounts(after, owners)
  {
    var n := |before.log.entries|;
    forall i | 0 <= i < |after.log.entries| && Carries(after.log.entries[i]) ensures OwnedWrite(owners, after.log.entries[i]) {
      assert after.log.entries[..n][i] == before.log.entries[i];
    }
  }

  lemma {:induction false} LoggedEntry(db: Db, tx: Tx, ctx: Context, after: Db, i: nat)
    requires LogsEveryOp(db, tx, ctx, after) && i < |after.log.entries|
    ensures if i < |db.log.entries| then after.log.entries[i] == db.log.entries[i]
            else after.log.entries[i].transactionId == Some(ctx.txId) && after.log.entries[i].lineage == ctx.lineage
  {
    var n := |db.log.entries|;
    if i < n {
      assert after.log.entries[..n][i] == db.log.entries[i];
    } else {
      assert StoredEntryFor(tx.ops[i - n], after.log.entries[n + (i - n)], ctx, db.log.nextId + (i - n) + 1);
    }
  }

  lemma {:induction false} ConsumedEntry(env: Env, sha: string -> string, db: Db, req: CommitRequest, after: Db, i: nat)
    requires ConsumedAtomically(env, sha, db, req, after) && KeyedIntents(db.intents) && i < |after.log.entries|
    ensures if i < |db.log.entries| then after.log.entries[i] == db.log.entries[i]
            else after.log.entries[i].transactionId == Some(req.tx.id) && after.log.entries[i].lineage.Some? &&
                 after.log.entries[i].lineage.value.intentId == req.verified.value
  {
    var intent := db.intents[IntentKey(req.scope, req.verified.value)];
    LoggedEntry(db, req.tx, Context(req.tx.id, req.actor, req.attribution, Some(LineageOf(intent, None))), after, i);
  }

  lemma {:induction false} OwnedStays(owners: Owners, k: IntentKey, id: string, e: AuditEntry)
    requires k !in owners && e.lineage.Some? && OwnedWrite(owners, e)
    ensures OwnedWrite(owners[k := id], e)
  {
    var l :| l in owners && l.id == e.lineage.value.intentId && e.transactionId == Some(owners[l]);
    assert l in owners[k := id] && owners[k := id][l] == owners[l];
  }

  lemma {:induction false} ConsumedKeepsAccounts(env: Env, sha: string -> string, db: Db, req: CommitRequest, after: Db, owners: Owners)
    requires ConsumedAtomically(env, sha, db, req, after) && KeyedIntents(db.intents) && Accounts(db, owners)
    ensures IntentKey(req.scope, req.verified.value) !in owners
    ensures Accounts(after, owners[IntentKey(req.scope, req.verified.value) := req.tx.id])
  {
    var k := IntentKey(req.scope, req.verified.value);
    ConsumedStates(env, sha, db, req, after);
    var more := owners[k := req.tx.id];
    forall i | 0 <= i < |after.log.entries| && Carries(after.log.entries[i]) ensures OwnedWrite(more, after.log.entries[i]) {
      ConsumedEntry(env, sha, db, req, after, i);
      if i < |db.log.entries| {
        OwnedStays(owners, k, req.tx.id, db.log.entries[i]);
      } else {
        assert k in more;
      }
    }
  }

  // ---------------------------------------------------------------------------
  // Every call
  // ---------------------------------------------------------------------------

  lemma {:induction false} LoggedQuietly(db: Db, tx: Tx, ctx: Context, after: Db)
    requires LogsEveryOp(db, tx, ctx, after) && ctx.lineage.None?
    ensures AddsQuietly(db.log, after.log)
  {
    forall i | |db.log.entries| <= i < |after.log.entries| ensures after.log.entries[i].lineage.None? {
      LoggedEntry(db, tx, ctx, after, i);
    }
  }

  lemma {:induction false} TxAddsQuietly(env: Env, db: Db, tx: Tx, ctx: Context)
    requires Sound(db) && ValidTx(tx) && ctx.lineage.None?
    ensures AddsQuietly(db.log, Commit(env, db, tx, ctx, NoHook).db.log)
  {
    CommitLogsEveryOp(env, db, tx, ctx, NoHook);
    if Commit(env, db, tx, ctx, NoHook).result.Ok? {
      LoggedQuietly(db, tx, ctx, Commit(env, db, tx, ctx, NoHook).db);
    }
  }

  lemma {:induction false} AuditedAddsQuietly(db: Db, k: IntentKey, step: Effect<Intent>, mutation: MutationType, actor: string,
                                             reason: Option<string>, clock: nat -> nat)
    requires k in db.intents && IntentStep(db, step.db) && mutation in {IntentApprove, IntentReject, IntentExpire}
    ensures AddsQuietly(db.log, Audited(db, k, step, mutation, actor, reason, clock).db.log)
  {
    if step.result.Ok? {
      RecordAddsQuietly(db.log, step.db, TransitionEntry(db.intents[k], step.result.value, mutation, actor, reason), clock);
    }
  }

  ghost predicate QuietCall(db: Db, after: Db)
  {
    Sound(after) && Evolves(db.intents, after.intents) && AddsQuietly(db.log, after.log)
  }

  lemma {:induction false} NewIntentQuiet(db: Db, i: Intent, e: AuditEntry, clock: nat -> nat)
    requires Sound(db) && KeyOf(i) !in db.intents && StateOk(i) && IntentEntry(e)
    ensures QuietCall(db, Record(db.(intents := db.intents[KeyOf(i) := i]), e, clock))
  {
    var mid := db.(intents := db.intents[KeyOf(i) := i]);
    assert Sound(mid);
    RecordKeepsSound(mid, e, clock);
    RecordAddsQuietly(db.log, mid, e, clock);
  }

  lemma {:induction false} PreviewQuiet(db: Db, i: Intent, clock: nat -> nat)
    requires Sound(db)
    ensures QuietCall(db, CreatePreview(db, i, clock).db)
  {
    if i.state == PreviewState(i.decision) && KeyOf(i) !in db.intents {
      NewIntentQuiet(db, i, LifecycleEntry(i, IntentPreview, ActorOf(i), None, i.summary, PreviewMetadata(i), LineageOf(i, None)), clock);
    }
  }

  lemma {:induction false} IntentStepQuiet(db: Db, after: Db)
    requires Sound(db) && IntentStep(db, after)
    ensures QuietCall(db, after)
  {
    IntentStepKeepsSound(db, after);
  }

  lemma {:induction false} AuditedQuiet(db: Db, k: IntentKey, step: Effect<Intent>, mutation: MutationType, actor: string,
                                       reason: Option<string>, clock: nat -> nat)
    requires Sound(db) && k in db.intents && IntentStep(db, step.db) && mutation in {IntentApprove, IntentReject, IntentExpire}
    ensures QuietCall(db, Audited(db, k, step, mutation, actor, reason, clock).db)
  {
    AuditedKeepsSound(db, k, step, mutation, actor, reason, clock);
    AuditedAddsQuietly(db, k, step, mutation, actor, reason, clock);
  }

  lemma {:induction false} RecordQuiet(db: Db, e: AuditEntry, clock: nat -> nat)
    requires Sound(db) && IntentEntry(e)
    ensures QuietCall(db, Record(db, e, clock))
  {
    RecordKeepsSound(db, e, clock);
    RecordAddsQuietly(db.log, db, e, clock);
  }

  /** A refused commit leaves the state alone or records one intent event. */
  lemma {:induction false} RefusedCommit(env: Env, sha: string -> string, db: Db, req: CommitRequest) returns (e: AuditEntry)
    requires CommitIntent(env, sha, db, req).result.Err?
    ensures CommitIntent(env, sha, db, req).db == db ||
            (IntentEntry(e) && CommitIntent(env, sha, db, req).db == Record(db, e, env.clock))
  {
    var v := ValidateBindings(db, req.scope, req.verified, Presented(req, sha), req.now);
    if v.Err? && req.verified.Some? && IntentKey(req.scope, req.verified.value) in db.intents {
      e := FailureEntry(db.intents[IntentKey(req.scope, req.verified.value)], v.error, req.actor);
    } else {
      e := NewEntry(Key("", ""), 0, IntentCommit, None, None, None);
    }
  }

  lemma {:induction false} RefusedCommitQuiet(env: Env, sha: string -> string, db: Db, req: CommitRequest)
    requires Sound(db) && CommitIntent(env, sha, db, req).result.Err?
    ensures QuietCall(db, CommitIntent(env, sha, db, req).db)
  {
    var e := RefusedCommit(env, sha, db, req);
    var after := CommitIntent(env, sha, db, req).db;
    if after == db {
      UnchangedQuiet(db);
    } else {
      RecordQuiet(db, e, env.clock);
    }
  }

  lemma {:induction false} UnchangedQuiet(db: Db)
    requires Sound(db)
    ensures QuietCall(db, db)
  {
  }

  predicate Consumes(db: Db, c: Call)
  {
    c.CommitCall? && CommitIntent(c.env, c.sha, db, c.req).result.Ok?
  }

  /** Every call but a successful intent commit is quiet. */
  lemma {:induction false} CallQuiet(db: Db, c: Call)
    requires Sound(db) && ValidCall(c) && !Consumes(db, c)
    ensures QuietCall(db, Next(db, c))
  {
    match c
    case TxCall(env, tx, actor, attribution) =>
      TxKeepsSound(env, db, tx, Context(tx.id, actor, attribution, None));
      TxAddsQuietly(env, db, tx, Context(tx.id, actor, attribution, None));
    case PreviewCall(i, clock) => PreviewQuiet(db, i, clock);
    case SweepCall(scope, due, now, clock) => SweepQuiet(db, scope, due, now, clock);
    case CommitCall(env, sha, req) => RefusedCommitQuiet(env, sha, db, req);
    case _ =>
      if c.ApproveAuditedCall? || c.RejectAuditedCall? || c.ExpireAuditedCall? {
        AuditedCallQuiet(db, c);
      } else {
        PlainCallQuiet(db, c);
      }
  }

  lemma {:induction false} SweepQuiet(db: Db, scope: Scope, due: seq<Intent>, now: nat, clock: nat -> nat)
    requires Sound(db)
    ensures QuietCall(db, Sweep(db, scope, due, now, clock).db)
  {
    SweepKeepsSound(db, db, scope, due, 0, now, clock);
  }

  lemma {:induction false} PlainCallQuiet(db: Db, c: Call)
    requires Sound(db) && (c.ApproveCall? || c.RejectCall? || c.ExpireCall? || c.MarkCall?)
    ensures QuietCall(db, Next(db, c))
  {
    match c
    case ApproveCall(k, review, now) => ReviewMoves(db, k, review, now, DoApprove, Approved);
    case RejectCall(k, review, now) => ReviewMoves(db, k, review, now, DoReject, Rejected);
    case ExpireCall(k, now) => ExpireMoves(db, k, now);
    case MarkCall(k, hash, now) => MarkCommittedMoves(db, k, hash, now);
    IntentStepQuiet(db, Next(db, c));
  }

  lemma {:induction false} AuditedCallQuiet(db: Db, c: Call)
    requires Sound(db) && (c.ApproveAuditedCall? || c.RejectAuditedCall? || c.ExpireAuditedCall?)
    ensures QuietCall(db, Next(db, c))
  {
    if c.key in db.intents {
      match c
      case ApproveAuditedCall(k, review, now, clock) =>
        ReviewMoves(db, k, review, now, DoApprove, Approved);
        AuditedQuiet(db, k, Approve(db, k, review, now), IntentApprove, ReviewActor(review), review.reason, clock);
      case RejectAuditedCall(k, review, now, clock) =>
        ReviewMoves(db, k, review, now, DoReject, Rejected);
        AuditedQuiet(db, k, Reject(db, k, review, now), IntentReject, ReviewActor(review), review.reason, clock);
      case ExpireAuditedCall(k, now, clock) =>
        ExpireMoves(db, k, now);
        AuditedQuiet(db, k, Expire(db, k, now), IntentExpire, "system", None, clock);
    }
  }

  lemma {:induction false} HookedCommitSound(env: Env, db: Db, tx: Tx, ctx: Context, k: IntentKey, expected: ApprovalState)
    requires Sound(db) && ValidTx(tx) && Commit(env, db, tx, ctx, CommitHook(k, expected)).result.Ok?
    ensures var after := Commit(env, db, tx, ctx, CommitHook(k, expected)).db;
            && KeyedRows(after.rows) && Reconstructs(after) && Chained(map[], after.log.entries) && ValidLog(after.log)
  {
    CommitHookQuiet(k, expected);
    CommitReconstructs(env, db, tx, ctx, CommitHook(k, expected));
    CommitChains(env, db, tx, ctx, CommitHook(k, expected));
    ExecuteEntries(env, db, tx, ctx);
    AppendAllValid(db.log, Execute(env, db, tx, ctx).value.entries, env.clock);
  }

  /** A successful intent commit is one hooked transaction commit. */
  lemma {:induction false} ConsumeIsCommit(env: Env, sha: string -> string, db: Db, req: CommitRequest)
    returns (ctx: Context, k: IntentKey, expected: ApprovalState)
    requires CommitIntent(env, sha, db, req).result.Ok?
    ensures Commit(env, db, req.tx, ctx, CommitHook(k, expected)).result.Ok?
    ensures CommitIntent(env, sha, db, req).db == Commit(env, db, req.tx, ctx, CommitHook(k, expected)).db
  {
    var i := ValidateBindings(db, req.scope, req.verified, Presented(req, sha), req.now).value;
    expected := CommitExpectedState(i).value;
    ctx := Context(req.tx.id, req.actor, req.attribution, Some(LineageOf(i, None)));
    k := IntentKey(req.scope, i.id);
  }

  lemma {:induction false} ConsumedIntents(env: Env, sha: string -> string, db: Db, req: CommitRequest, after: Db)
    requires IntentsOk(db.intents) && ConsumedAtomically(env, sha, db, req, after)
    ensures IntentsOk(after.intents) && Evolves(db.intents, after.intents)
  {
  }

  lemma {:induction false} ConsumeKeepsSound(env: Env, sha: string -> string, db: Db, req: CommitRequest)
    requires Sound(db) && ValidTx(req.tx) && CommitIntent(env, sha, db, req).result.Ok?
    ensures var after := CommitIntent(env, sha, db, req).db;
            Sound(after) && Evolves(db.intents, after.intents) && ConsumedAtomically(env, sha, db, req, after)
  {
    var after := CommitIntent(env, sha, db, req).db;
    CommitIntentAtomic(env, sha, db, req);
    ConsumedIntents(env, sha, db, req, after);
    var ctx, k, expected := ConsumeIsCommit(env, sha, db, req);
    HookedCommitSound(env, db, req.tx, ctx, k, expected);
  }

  /** Every call keeps the state sound and moves intents legally. */
  lemma {:induction false} CallKeepsSound(db: Db, c: Call)
    requires Sound(db) && ValidCall(c)
    ensures Sound(Next(db, c)) && Evolves(db.intents, Next(db, c).intents)
  {
    if Consumes(db, c) {
      ConsumeKeepsSound(c.env, c.sha, db, c.req);
    } else {
      CallQuiet(db, c);
    }
  }

  // ---------------------------------------------------------------------------
  // Theorems over runs
  // ---------------------------------------------------------------------------

  lemma {:induction false} RunSound(calls: seq<Call>)
    requires ValidRun(calls)
    ensures Sound(Run(calls))
    decreases |calls|
  {
    if calls != [] {
      RunSound(calls[..|calls| - 1]);
      CallKeepsSound(Run(calls[..|calls| - 1]), calls[|calls| - 1]);
    }
  }

  /** After any run, folding the log gives exactly the stored rows and forward links. */
  lemma {:induction false} AuditReconstruction(calls: seq<Call>, k: Key)
    requires ValidRun(calls) && k.collection != LINKS_REV
    ensures var db := Run(calls);
            if k in db.rows then k in Rebuilt(db.log) && Rebuilt(db.log)[k] == db.rows[k] else k !in Rebuilt(db.log)
  {
    RunSound(calls);
    var db := Run(calls);
    assert k in Visible(db.rows) <==> k in db.rows;
    assert k in Visible(Rebuilt(db.log)) <==> k in Rebuilt(db.log);
  }

  /** After any run a row's version is its created version plus its committed updates since. */
  lemma {:induction false} NoLostUpdates(calls: seq<Call>, k: Key)
    requires ValidRun(calls) && k.collection != LINKS_REV
    ensures var db := Run(calls);
            && (k in db.rows <==> LifeOf(db.log.entries, k).Alive?)
            && (k in db.rows ==>
                  db.rows[k].version == LifeOf(db.log.entries, k).created + LifeOf(db.log.entries, k).updates)
  {
    RunSound(calls);
    AuditReconstruction(calls, k);
    VersionCountsUpdates(Run(calls).log.entries, k);
  }

  /** Along any run no two committed updates of a row, between two creations of it, started from the same version. */
  lemma {:induction false} RunUpdatesNeverCollide(calls: seq<Call>, k: Key, i: nat, j: nat)
    requires ValidRun(calls) && k.collection != LINKS_REV && i < j < |Run(calls).log.entries|
    requires UpdateOf(Run(calls).log.entries[i], k) && UpdateOf(Run(calls).log.entries[j], k)
    requires forall c :: i < c < j ==> !CreateOf(Run(calls).log.entries[c], k)
    ensures Run(calls).log.entries[i].version < Run(calls).log.entries[j].version
  {
    RunSound(calls);
    UpdatesNeverCollide(Run(calls).log.entries, k, i, j);
  }

  /** The transaction a call tries to commit. */
  function TxOf(c: Call): Option<Tx>
  {
    match c
    case TxCall(_, tx, _, _) => Some(tx)
    case CommitCall(_, _, req) => Some(req.tx)
    case _ => None
  }

  /** The call committed its transaction. */
  predicate Commits(db: Db, c: Call)
  {
    match c
    case TxCall(env, tx, actor, attribution) => Commit(env, db, tx, Context(tx.id, actor, attribution, None), NoHook).result.Ok?
    case CommitCall(env, sha, req) => CommitIntent(env, sha, db, req).result.Ok?
    case _ => false
  }

  lemma {:induction false} CommittedExecutes(db: Db, c: Call) returns (env: Env, ctx: Context)
    requires Sound(db) && ValidCall(c) && Commits(db, c)
    ensures TxOf(c).Some? && ValidTx(TxOf(c).value) && Execute(env, db, TxOf(c).value, ctx).Ok?
  {
    match c
    case TxCall(e, tx, actor, attribution) => env, ctx := e, Context(tx.id, actor, attribution, None);
    case CommitCall(e, sha, req) =>
      CommitIntentAtomic(e, sha, db, req);
      env := e;
      ctx := Context(req.tx.id, req.actor, req.attribution,
                     Some(LineageOf(db.intents[IntentKey(req.scope, req.verified.value)], None)));
  }

  /**
   Along any run a committed call updates one row twice only if an operation in between put
   the row back to the version both updates expected.
   */
  lemma {:induction false} RunDoubleUpdateNeedsReset(calls: seq<Call>, n: nat, k: Key, a: nat, b: nat) returns (c: nat)
    requires ValidRun(calls) && n < |calls| && Commits(Run(calls[..n]), calls[n])
    requires TxOf(calls[n]).Some? && a < b < |TxOf(calls[n]).value.ops|
    requires UpdatesKey(TxOf(calls[n]).value.ops[a], k) && UpdatesKey(TxOf(calls[n]).value.ops[b], k)
    ensures a < c < b && Resets(TxOf(calls[n]).value.ops[c], k, TxOf(calls[n]).value.ops[a].op.expected)
  {
    RunSound(calls[..n]);
    var env, ctx := CommittedExecutes(Run(calls[..n]), calls[n]);
    c := DoubleUpdateNeedsReset(env, Run(calls[..n]), TxOf(calls[n]).value, ctx, k, a, b);
  }

  /** Along any run, no committed call whose creations have versions of at least 1 updates one row twice. */
  lemma {:induction false} RunNoDoubleUpdate(calls: seq<Call>, n: nat, k: Key, a: nat, b: nat)
    requires ValidRun(calls) && n < |calls| && k.collection != LINKS_REV
    requires TxOf(calls[n]).Some? && AllPositive(TxOf(calls[n]).value.ops) && a < b < |TxOf(calls[n]).value.ops|
    requires UpdatesKey(TxOf(calls[n]).value.ops[a], k) && UpdatesKey(TxOf(calls[n]).value.ops[b], k)
    ensures !Commits(Run(calls[..n]), calls[n])
  {
    if Commits(Run(calls[..n]), calls[n]) {
      var c := RunDoubleUpdateNeedsReset(calls, n, k, a, b);
    }
  }

  /** The intent tables along a run. */
  function Tables(calls: seq<Call>): (h: seq<map<IntentKey, Intent>>)
    ensures |h| == |calls| + 1
    ensures forall n :: 0 <= n <= |calls| ==> h[n] == Run(calls[..n]).intents
  {
    seq(|calls| + 1, n requires 0 <= n <= |calls| => Run(calls[..n]).intents)
  }

  ghost predicate Legal(h: seq<map<IntentKey, Intent>>)
  {
    forall n :: 0 <= n && n + 1 < |h| ==> Evolves(h[n], h[n + 1])
  }

  lemma {:induction false} RunEvolves(calls: seq<Call>, i: nat)
    requires ValidRun(calls) && i < |calls|
    ensures Evolves(Run(calls[..i]).intents, Run(calls[..i + 1]).intents)
  {
    RunSound(calls[..i]);
    RunNext(calls, i);
    CallKeepsSound(Run(calls[..i]), calls[i]);
  }

  lemma {:induction false} RunsAreLegal(calls: seq<Call>)
    requires ValidRun(calls)
    ensures Legal(Tables(calls))
  {
    var h := Tables(calls);
    forall n | 0 <= n && n + 1 < |h| ensures Evolves(h[n], h[n + 1]) {
      RunEvolves(calls, n);
    }
  }

  predicate Terminal(s: ApprovalState) { s in {Rejected, Expired, Committed} }

  lemma {:induction false} TerminalInTables(h: seq<map<IntentKey, Intent>>, i: nat, j: nat, k: IntentKey)
    requires Legal(h) && i <= j < |h| && k in h[i] && Terminal(h[i][k].state)
    ensures k in h[j] && h[j][k] == h[i][k]
    decreases j
  {
    if i < j {
      TerminalInTables(h, i, j - 1, k);
      assert Evolves(h[j - 1], h[j - 1 + 1]);
    }
  }

  /** A rejected, expired or committed intent never changes again. */
  lemma {:induction false} TerminalForever(calls: seq<Call>, i: nat, j: nat, k: IntentKey)
    requires ValidRun(calls) && i <= j <= |calls|
    requires k in Run(calls[..i]).intents && Terminal(Run(calls[..i]).intents[k].state)
    ensures k in Run(calls[..j]).intents && Run(calls[..j]).intents[k] == Run(calls[..i]).intents[k]
  {
    RunsAreLegal(calls);
    TerminalInTables(Tables(calls), i, j, k);
  }

  /** An intent first appears in its preview state. */
  lemma {:induction false} NewIntentsArePreviews(db: Db, c: Call)
    requires Sound(db) && ValidCall(c)
    ensures NewOnesPreviewed(db.intents, Next(db, c).intents)
  {
    match c
    case PreviewCall(i, clock) =>
    case TxCall(env, tx, actor, attribution) => TxKeepsSound(env, db, tx, Context(tx.id, actor, attribution, None));
    case SweepCall(scope, due, now, clock) => SweepAddsNothing(db, scope, due, 0, now, clock);
    case CommitCall(env, sha, req) => CommitIntentAtomic(env, sha, db, req);
    case _ =>
      if c.ApproveAuditedCall? || c.RejectAuditedCall? || c.ExpireAuditedCall? {
        AuditedAddsNothing(db, c);
      } else {
        PlainAddsNothing(db, c);
      }
  }

  predicate NewOnesPreviewed(before: map<IntentKey, Intent>, after: map<IntentKey, Intent>)
  {
    forall k :: k in after && k !in before ==> after[k].state == PreviewState(after[k].decision)
  }

  lemma {:induction false} SweepAddsNothing(db: Db, scope: Scope, due: seq<Intent>, i: nat, now: nat, clock: nat -> nat)
    requires i <= |due|
    ensures SweepFrom(db, scope, due, i, now, clock).db.intents.Keys == db.intents.Keys
    decreases |due| - i
  {
    if i < |due| {
      var step := Expire(db, IntentKey(scope, due[i].id), now);
      if step.result.Ok? {
        SweepAddsNothing(Record(step.db, TransitionEntry(due[i], step.result.value, IntentExpire, "system", None), clock),
                         scope, due, i + 1, now, clock);
      }
    }
  }

  lemma {:induction false} SetStateKeys(db: Db, k: IntentKey, expected: ApprovalState, next: ApprovalState)
    ensures SetState(db, k, expected, next).db.intents.Keys == db.intents.Keys
  {
  }

  lemma {:induction false} ReviewKeys(db: Db, k: IntentKey, review: Review, now: nat, op: Operation, to: ApprovalState)
    ensures ReviewTo(db, k, review, now, op, to).db.intents.Keys == db.intents.Keys
  {
    if k in db.intents {
      var i := db.intents[k];
      SetStateKeys(db, IntentKey(k.scope, i.id), i.state, Expired);
      SetStateKeys(db, k, Pending, to);
    }
  }

  lemma {:induction false} PlainAddsNothing(db: Db, c: Call)
    requires c.ApproveCall? || c.RejectCall? || c.ExpireCall? || c.MarkCall?
    ensures Next(db, c).intents.Keys == db.intents.Keys
  {
    match c
    case ApproveCall(k, review, now) => ReviewKeys(db, k, review, now, DoApprove, Approved);
    case RejectCall(k, review, now) => ReviewKeys(db, k, review, now, DoReject, Rejected);
    case _ =>
  }

  lemma {:induction false} AuditedAddsNothing(db: Db, c: Call)
    requires c.ApproveAuditedCall? || c.RejectAuditedCall? || c.ExpireAuditedCall?
    ensures Next(db, c).intents.Keys == db.intents.Keys
  {
    match c
    case ApproveAuditedCall(k, review, now, _) => PlainAddsNothing(db, ApproveCall(k, review, now));
    case RejectAuditedCall(k, review, now, _) => PlainAddsNothing(db, RejectCall(k, review, now));
    case ExpireAuditedCall(k, now, _) => PlainAddsNothing(db, ExpireCall(k, now));
  }

  ghost predicate PreviewsOnly(h: seq<map<IntentKey, Intent>>)
  {
    h != [] && h[0] == map[] && forall n :: 0 <= n && n + 1 < |h| ==> NewOnesPreviewed(h[n], h[n + 1])
  }

  lemma {:induction false} RunsPreview(calls: seq<Call>)
    requires ValidRun(calls)
    ensures PreviewsOnly(Tables(calls))
  {
    var h := Tables(calls);
    assert calls[..0] == [];
    forall n | 0 <= n && n + 1 < |h| ensures NewOnesPreviewed(h[n], h[n + 1]) {
      RunSound(calls[..n]);
      RunNext(calls, n);
      NewIntentsArePreviews(Run(calls[..n]), calls[n]);
    }
  }

  lemma {:induction false} ApprovedInTables(h: seq<map<IntentKey, Intent>>, n: nat, k: IntentKey)
    requires Legal(h) && PreviewsOnly(h) && n < |h| && k in h[n]
    requires h[n][k].decision == NeedsApproval && h[n][k].state == Committed
    ensures exists m :: 0 <= m < n && k in h[m] && h[m][k].state == Approved
    decreases n
  {
    if n > 0 {
      assert Evolves(h[n - 1], h[n - 1 + 1]);
      assert NewOnesPreviewed(h[n - 1], h[n - 1 + 1]);
      if h[n - 1][k].state == Committed {
        ApprovedInTables(h, n - 1, k);
      } else {
        assert h[n - 1][k].state == Approved;
      }
    }
  }

  /** A committed intent that needed approval was approved earlier in the run. */
  lemma {:induction false} CommittedWasApproved(calls: seq<Call>, n: nat, k: IntentKey)
    requires ValidRun(calls) && n <= |calls| && k in Run(calls[..n]).intents
    requires Run(calls[..n]).intents[k].decision == NeedsApproval && Run(calls[..n]).intents[k].state == Committed
    ensures exists m :: 0 <= m < n && k in Run(calls[..m]).intents && Run(calls[..m]).intents[k].state == Approved
  {
    RunsAreLegal(calls);
    RunsPreview(calls);
    var h := Tables(calls);
    ApprovedInTables(h, n, k);
    var m :| 0 <= m < n && k in h[m] && h[m][k].state == Approved;
    assert h[m] == Run(calls[..m]).intents;
  }

  /** Committing an intent finds it executable and leaves it committed. */
  lemma {:induction false} ConsumedStates(env: Env, sha: string -> string, db: Db, req: CommitRequest, after: Db)
    requires ConsumedAtomically(env, sha, db, req, after)
    ensures req.verified.Some?
    ensures var k := IntentKey(req.scope, req.verified.value);
            && k in db.intents && db.intents[k].state in {Unreviewed, Approved}
            && k in after.intents && after.intents[k].state == Committed
  {
  }

  lemma {:induction false} ConsumeStates(db: Db, c: Call)
    requires Sound(db) && ValidCall(c) && Consumes(db, c)
    ensures c.req.verified.Some?
    ensures var k := IntentKey(c.req.scope, c.req.verified.value);
            && k in db.intents && db.intents[k].state in {Unreviewed, Approved}
            && k in Next(db, c).intents && Next(db, c).intents[k].state == Committed
  {
    CommitIntentAtomic(c.env, c.sha, db, c.req);
    ConsumedStates(c.env, c.sha, db, c.req, CommitIntent(c.env, c.sha, db, c.req).db);
  }

  lemma {:induction false} ConsumingCall(calls: seq<Call>, a: nat)
    requires ValidRun(calls) && a < |calls| && Consumes(Run(calls[..a]), calls[a])
    ensures calls[a].req.verified.Some?
    ensures var k := IntentKey(calls[a].req.scope, calls[a].req.verified.value);
            && k in Run(calls[..a]).intents && Run(calls[..a]).intents[k].state in {Unreviewed, Approved}
            && k in Run(calls[..a + 1]).intents && Run(calls[..a + 1]).intents[k].state == Committed
  {
    RunSound(calls[..a]);
    RunNext(calls, a);
    ConsumeStates(Run(calls[..a]), calls[a]);
  }

  /** At most one call of a run commits a given intent. */
  lemma {:induction false} AtMostOneCommit(calls: seq<Call>, a: nat, b: nat)
    requires ValidRun(calls) && a < b < |calls|
    requires Consumes(Run(calls[..a]), calls[a]) && Consumes(Run(calls[..b]), calls[b])
    ensures calls[a].req.scope != calls[b].req.scope || calls[a].req.verified != calls[b].req.verified
  {
    ConsumingCall(calls, a);
    ConsumingCall(calls, b);
    TerminalForever(calls, a + 1, b, IntentKey(calls[a].req.scope, calls[a].req.verified.value));
  }

  lemma {:induction false} CallKeepsAccounts(db: Db, c: Call, owners: Owners) returns (after: Owners)
    requires Sound(db) && ValidCall(c) && Accounts(db, owners)
    ensures Accounts(Next(db, c), after)
  {
    if Consumes(db, c) {
      after := ConsumeAccounts(db, c, owners);
    } else {
      CallQuiet(db, c);
      QuietKeepsAccounts(db, Next(db, c), owners);
      after := owners;
    }
  }

  lemma {:induction false} ConsumeAccounts(db: Db, c: Call, owners: Owners) returns (after: Owners)
    requires Sound(db) && ValidCall(c) && Accounts(db, owners) && Consumes(db, c)
    ensures Accounts(Next(db, c), after)
  {
    CommitIntentAtomic(c.env, c.sha, db, c.req);
    ConsumedKeepsAccounts(c.env, c.sha, db, c.req, Next(db, c), owners);
    after := owners[IntentKey(c.req.scope, c.req.verified.value) := c.req.tx.id];
  }

  /**
   In the log of any run every write that carries an intent's lineage belongs to the one
   transaction of a committed intent with that id: within a scope an intent has at most one.
   */
  lemma {:induction false} WritesAccountedFor(calls: seq<Call>) returns (owners: Owners)
    requires ValidRun(calls)
    ensures Accounts(Run(calls), owners)
    decreases |calls|
  {
    if calls == [] {
      owners := map[];
    } else {
      var init := calls[..|calls| - 1];
      RunSound(init);
      owners := WritesAccountedFor(init);
      owners := CallKeepsAccounts(Run(init), calls[|calls| - 1], owners);
    }
  }

  /** Two writes carrying the lineage of an intent id that one scope uses are of one transaction, and the intent is committed. */
  lemma {:induction false} OneTransactionPerIntent(calls: seq<Call>, k: IntentKey, i: nat, j: nat)
    requires ValidRun(calls) && i < |Run(calls).log.entries| && j < |Run(calls).log.entries|
    requires forall l :: l in Run(calls).intents && l.id == k.id ==> l == k
    requires Carries(Run(calls).log.entries[i]) && Run(calls).log.entries[i].lineage.value.intentId == k.id
    requires Carries(Run(calls).log.entries[j]) && Run(calls).log.entries[j].lineage.value.intentId == k.id
    ensures k in Run(calls).intents && Run(calls).intents[k].state == Committed
    ensures Run(calls).log.entries[i].transactionId == Run(calls).log.entries[j].transactionId
  {
    var owners := WritesAccountedFor(calls);
    var entries := Run(calls).log.entries;
    assert OwnedWrite(owners, entries[i]) && OwnedWrite(owners, entries[j]);
    var a :| a in owners && a.id == k.id && entries[i].transactionId == Some(owners[a]);
    var b :| b in owners && b.id == k.id && entries[j].transactionId == Some(owners[b]);
  }
}
