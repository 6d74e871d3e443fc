/** The intent lifecycle service as it drives the storage adapter. */
module IntentService {
  import opened Prelude
  import opened Audit
  import opened Store
  import opened TxSpec
  import opened IntentSpec
  import opened Transactions

  /** Intents are stored under their own scope and id. */
  predicate KeyedIntents(intents: map<IntentKey, Intent>)
  {
    forall k :: k in intents ==> KeyOf(intents[k]) == k
  }

  const FAULT := StorageError(StorageFault)
  const COMMIT_FAULT := StorageError(CommitFault)

  // ---------------------------------------------------------------------------
  // Due lists
  // ---------------------------------------------------------------------------

  /** Expiry order: by deadline, then by id. */
  predicate Before(a: Intent, b: Intent)
  {
    a.expiresAt < b.expiresAt || (a.expiresAt == b.expiresAt && Less(a.id, b.id))
  }

  predicate InExpiryOrder(list: seq<Intent>)
  {
    forall i, j :: 0 <= i < j < |list| ==> Before(list[i], list[j])
  }

  predicate DueMember(intents: map<IntentKey, Intent>, scope: Scope, now: nat, i: Intent)
  {
    KeyOf(i) in intents && intents[KeyOf(i)] == i && i.scope == scope && Due(i, now) && Expirable(i.state)
  }

  ghost predicate IsDueList(intents: map<IntentKey, Intent>, scope: Scope, now: nat, list: seq<Intent>)
  {
    InExpiryOrder(list) && forall i :: i in list <==> DueMember(intents, scope, now, i)
  }

  function InsertDue(i: Intent, list: seq<Intent>): seq<Intent>
  {
    if list == [] || Before(i, list[0]) then [i] + list else [list[0]] + InsertDue(i, list[1..])
  }

  lemma {:induction false} BeforeTotal(a: Intent, b: Intent)
    requires a.id != b.id
    ensures Before(a, b) || Before(b, a)
  {
    LessTotal(a.id, b.id);
  }

  lemma {:induction false} BeforeTransitive(a: Intent, b: Intent, c: Intent)
    requires Before(a, b) && Before(b, c)
    ensures Before(a, c)
  {
    if a.expiresAt == b.expiresAt == c.expiresAt { LessTransitive(a.id, b.id, c.id); }
  }

  lemma {:induction false} BeforeDistinct(a: Intent, b: Intent)
    requires Before(a, b)
    ensures a != b && !Before(b, a)
  {
    if a.expiresAt == b.expiresAt { LessAsymmetric(a.id, b.id); }
  }

  lemma {:induction false} InsertDueMembers(i: Intent, list: seq<Intent>)
    ensures forall x :: x in InsertDue(i, list) <==> x == i || x in list
  {
    if list != [] && !Before(i, list[0]) { InsertDueMembers(i, list[1..]); }
  }

  lemma {:induction false} InsertDueOrder(i: Intent, list: seq<Intent>)
    requires InExpiryOrder(list) && forall x :: x in list ==> x.id != i.id
    ensures InExpiryOrder(InsertDue(i, list))
  {
    if list != [] {
      if Before(i, list[0]) {
        forall x | x in list ensures Before(i, x) {
          if x != list[0] { BeforeTransitive(i, list[0], x); }
        }
        ConsOrder(i, list);
      } else {
        BeforeTotal(i, list[0]);
        InsertDueOrder(i, list[1..]);
        InsertDueMembers(i, list[1..]);
        ConsOrder(list[0], InsertDue(i, list[1..]));
      }
    }
  }

  lemma {:induction false} ConsOrder(i: Intent, list: seq<Intent>)
    requires InExpiryOrder(list) && forall x :: x in list ==> Before(i, x)
    ensures InExpiryOrder([i] + list)
  {
    var r := [i] + list;
    forall a, b | 0 <= a < b < |r| ensures Before(r[a], r[b]) {
      assert r[b] == list[b - 1] && r[b] in list;
      if a > 0 { assert r[a] == list[a - 1]; }
    }
  }

  /** The first due intents in expiry order, as many as the limit lets through. */
  ghost predicate IsDuePage(intents: map<IntentKey, Intent>, scope: Scope, now: nat, limit: Option<nat>, page: seq<Intent>)
  {
    && InExpiryOrder(page) && (limit.Some? ==> |page| <= limit.value)
    && (forall i :: i in page ==> DueMember(intents, scope, now, i))
    && (forall i :: DueMember(intents, scope, now, i) && i !in page ==> limit.Some? && |page| == limit.value && AfterAll(page, i))
  }

  predicate AfterAll(page: seq<Intent>, i: Intent)
  {
    forall x :: x in page ==> Before(x, i)
  }

  lemma {:induction false} CutIsDuePage(intents: map<IntentKey, Intent>, scope: Scope, now: nat, limit: Option<nat>, full: seq<Intent>)
    requires IsDueList(intents, scope, now, full)
    ensures IsDuePage(intents, scope, now, limit, if limit.Some? && limit.value < |full| then full[..limit.value] else full)
  {
    if limit.Some? && limit.value < |full| {
      forall i | i in full && i !in full[..limit.value] ensures AfterAll(full[..limit.value], i) {
        var k :| 0 <= k < |full| && full[k] == i;
      }
    }
  }

  /** The due intents of a scope in expiry order, cut to the limit. */
  method ListExpired(storage: Storage, scope: Scope, now: nat, limit: Option<nat>)
    returns (r: Result<seq<Intent>, Error>, ghost full: seq<Intent>)
    requires KeyedIntents(storage.intents)
    ensures IsDueList(storage.intents, scope, now, full)
    ensures r == Ok(if limit.Some? && limit.value < |full| then full[..limit.value] else full) ||
            (!storage.reliable && r == Err(StorageFault))
    ensures r.Ok? ==> IsDuePage(storage.intents, scope, now, limit, r.value)
    ensures r.Err? ==> !storage.reliable
  {
    var list: seq<Intent> := [];
    var todo := storage.intents.Keys;
    while todo != {}
      invariant todo <= storage.intents.Keys
      invariant InExpiryOrder(list)
      invariant forall i :: i in list <==> DueMember(storage.intents, scope, now, i) && KeyOf(i) !in todo
      decreases |todo|
    {
      var k :| k in todo;
      todo := todo - {k};
      var i := storage.intents[k];
      if i.scope == scope && Due(i, now) && Expirable(i.state) {
        InsertDueMembers(i, list);
        forall x | x in list ensures x.id != i.id {
          assert KeyOf(x) != k;
        }
        InsertDueOrder(i, list);
        list := InsertDue(i, list);
      }
    }
    full := list;
    CutIsDuePage(storage.intents, scope, now, limit, full);
    var fault: bool := *;
    if !storage.reliable && fault { return Err(StorageFault), full; }
    r := Ok(if limit.Some? && limit.value < |list| then list[..limit.value] else list);
  }

  // ---------------------------------------------------------------------------
  // The service
  // ---------------------------------------------------------------------------

  /** A call that behaves as specified, or reports a storage fault and changes nothing. */
  predicate Refines<T(==)>(before: Db, storage: Storage, r: Result<T, LifecycleError>, spec: Effect<T>)
    reads storage
  {
    || Effect(storage.View(), r) == spec
    || (!storage.reliable && r == Err(FAULT) && storage.View() == before)
  }

  method LoadIntent(storage: Storage, k: IntentKey) returns (r: Result<Intent, LifecycleError>)
    ensures r.Ok? ==> k in storage.intents && r.value == storage.intents[k]
    ensures r.Err? ==> (r.error == IntentNotFound && k !in storage.intents) || (!storage.reliable && r.error == FAULT)
  {
    var got := storage.FetchIntent(k);
    if got.Err? { return Err(StorageError(got.error)); }
    if got.value.None? { return Err(IntentNotFound); }
    r := Ok(got.value.value);
  }

  method UpdateState(storage: Storage, k: IntentKey, expected: ApprovalState, next: ApprovalState)
    returns (r: Result<Intent, LifecycleError>)
    modifies storage
    ensures storage.snapshot == old(storage.snapshot)
    ensures Refines(old(storage.View()), storage, r, SetState(old(storage.View()), k, expected, next))
  {
    var u := storage.UpdateIntentState(k, expected, next);
    r := if u.Ok? then Ok(u.value) else Err(StorageError(u.error));
  }

  method RejectIfExpiredOrExpire(storage: Storage, k: IntentKey, intent: Intent, now: nat, op: Operation)
    returns (r: Result<(), LifecycleError>)
    modifies storage
    ensures storage.snapshot == old(storage.snapshot)
    ensures Refines(old(storage.View()), storage, r, RejectIfExpired(old(storage.View()), k, intent, now, op))
  {
    var already := intent.state == Expired;
    var due := intent.expiresAt <= now;
    if !already && due && Expirable(intent.state) {
      var moved := UpdateState(storage, IntentKey(k.scope, intent.id), intent.state, Expired);
      if moved.Err? { return Err(moved.error); }
    }
    if already || due { return Err(IntentExpired(op, intent.expiresAt, now)); }
    r := Ok(());
  }

  method ReviewIntent(storage: Storage, k: IntentKey, review: Review, now: nat, op: Operation, to: ApprovalState)
    returns (r: Result<Intent, LifecycleError>)
    modifies storage
    ensures storage.snapshot == old(storage.snapshot)
    ensures Refines(old(storage.View()), storage, r, ReviewTo(old(storage.View()), k, review, now, op, to))
  {
    var loaded := LoadIntent(storage, k);
    if loaded.Err? { return Err(loaded.error); }
    var intent := loaded.value;
    var live := RejectIfExpiredOrExpire(storage, k, intent, now, op);
    if live.Err? { return Err(live.error); }
    if intent.decision != NeedsApproval { return Err(InvalidDecision(op, intent.decision)); }
    if intent.state != Pending { return Err(InvalidTransition(op, intent.state, to)); }
    if intent.reasonRequired && !HasReason(review) { return Err(ReasonRequired(op)); }
    r := UpdateState(storage, k, Pending, to);
  }

  method ExpireIntent(storage: Storage, k: IntentKey, now: nat) returns (r: Result<Intent, LifecycleError>)
    modifies storage
    ensures storage.snapshot == old(storage.snapshot)
    ensures Refines(old(storage.View()), storage, r, Expire(old(storage.View()), k, now))
  {
    var loaded := LoadIntent(storage, k);
    if loaded.Err? { return Err(loaded.error); }
    var intent := loaded.value;
    if intent.expiresAt > now { return Err(NotExpired(intent.expiresAt, now)); }
    if !Expirable(intent.state) { return Err(InvalidTransition(DoExpire, intent.state, Expired)); }
    r := UpdateState(storage, k, intent.state, Expired);
  }

  method MarkIntentCommitted(storage: Storage, k: IntentKey, hash: Option<string>, now: nat)
    returns (r: Result<Intent, LifecycleError>)
    modifies storage
    ensures storage.snapshot == old(storage.snapshot)
    ensures Refines(old(storage.View()), storage, r, MarkCommitted(old(storage.View()), k, hash, now))
  {
    var loaded := LoadIntent(storage, k);
    if loaded.Err? { return Err(loaded.error); }
    var intent := loaded.value;
    var live := RejectIfExpiredOrExpire(storage, k, intent, now, DoCommit);
    if live.Err? { return Err(live.error); }
    if hash.Some? && intent.operationHash != hash.value {
      return Err(HashMismatch(intent.operationHash, hash.value));
    }
    var expected := CommitExpectedState(intent);
    if expected.Err? { return Err(expected.error); }
    if intent.state != expected.value { return Err(InvalidTransition(DoCommit, intent.state, Committed)); }
    r := UpdateState(storage, k, expected.value, Committed);
  }

  /**
   All or nothing, assuming `commit_tx` itself succeeds: any error restores the
   state, except that a failed `commit_tx` leaves the transaction open with the
   old state in its snapshot.
   */
  predicate AllOrNothing<T(==)>(before: Db, open: Option<Db>, storage: Storage, r: Result<T, LifecycleError>, spec: Effect<T>)
    reads storage
  {
    && (r.Ok? ==> storage.snapshot == None && Effect(storage.View(), r) == spec)
    && (r.Err? && r.error != COMMIT_FAULT ==> storage.View() == before && storage.snapshot == open)
    && (r.Err? && r.error == COMMIT_FAULT ==> !storage.reliable && storage.snapshot == Some(before))
    && (storage.reliable && storage.ownsAuditLog && open == None ==> Effect(storage.View(), r) == spec)
  }

  method Begin(storage: Storage) returns (r: Result<(), LifecycleError>)
    modifies storage
    ensures storage.View() == old(storage.View())
    ensures r.Ok? ==> storage.ownsAuditLog && old(storage.snapshot) == None && storage.snapshot == Some(storage.View())
    ensures r.Err? ==> storage.snapshot == old(storage.snapshot) && r.error != COMMIT_FAULT
    ensures storage.reliable && storage.ownsAuditLog && old(storage.snapshot) == None ==> r.Ok?
  {
    if !storage.ownsAuditLog { return Err(StorageError(InvalidOperation("storage adapter does not own an audit log"))); }
    var begun := storage.BeginTx();
    r := if begun.Ok? then Ok(()) else Err(StorageError(begun.error));
  }

  /** Close the transaction opened by `Begin`: keep everything or restore the snapshot. */
  method Close<T>(storage: Storage, inner: Result<T, LifecycleError>) returns (r: Result<T, LifecycleError>)
    requires storage.snapshot.Some?
    modifies storage
    ensures inner.Err? ==> r == inner && storage.snapshot == None && storage.View() == old(storage.snapshot).value
    ensures inner.Ok? ==> storage.View() == old(storage.View())
    ensures inner.Ok? ==> (r == inner && storage.snapshot == None) ||
                          (!storage.reliable && r == Err(COMMIT_FAULT) && storage.snapshot == old(storage.snapshot))
  {
    if inner.Err? {
      storage.AbortTx();
      return inner;
    }
    var committed := storage.CommitTx();
    r := if committed.Ok? then inner else Err(COMMIT_FAULT);
  }

  method CreatePreviewRecord(storage: Storage, intent: Intent, clock: nat -> nat) returns (r: Result<Intent, LifecycleError>)
    modifies storage
    ensures AllOrNothing(old(storage.View()), old(storage.snapshot), storage, r, CreatePreview(old(storage.View()), intent, clock))
  {
    if intent.state != PreviewState(intent.decision) {
      return Err(InvalidPreviewState(intent.state, PreviewState(intent.decision)));
    }
    var begun := Begin(storage);
    if begun.Err? { return Err(begun.error); }
    var created := storage.CreateIntent(intent);
    var inner: Result<Intent, LifecycleError>;
    if created.Err? {
      inner := Err(StorageError(created.error));
    } else {
      var appended := storage.AppendAudit(
        LifecycleEntry(intent, IntentPreview, ActorOf(intent), None, intent.summary, PreviewMetadata(intent), LineageOf(intent, None)), clock);
      inner := if appended.Ok? then Ok(intent) else Err(StorageError(appended.error));
    }
    r := Close(storage, inner);
  }

  method AppendTransition(storage: Storage, before: Intent, after: Intent, mutation: MutationType, actor: string,
                          reason: Option<string>, clock: nat -> nat) returns (r: Result<(), LifecycleError>)
    modifies storage
    ensures storage.snapshot == old(storage.snapshot)
    ensures r.Ok? ==> storage.View() == Record(old(storage.View()), TransitionEntry(before, after, mutation, actor, reason), clock)
    ensures r.Err? ==> !storage.reliable && r.error == FAULT
  {
    var appended := storage.AppendAudit(TransitionEntry(before, after, mutation, actor, reason), clock);
    r := if appended.Ok? then Ok(()) else Err(StorageError(appended.error));
  }

  /** Record a transition made inside the open transaction and close it. */
  method RecordAndClose(storage: Storage, ghost before: Db, k: IntentKey, i: Intent, inner: Result<Intent, LifecycleError>,
                        ghost step: Effect<Intent>, mutation: MutationType, actor: string, reason: Option<string>,
                        clock: nat -> nat) returns (r: Result<Intent, LifecycleError>)
    requires storage.snapshot == Some(before) && k in before.intents && i == before.intents[k]
    requires Refines(before, storage, inner, step) && inner != Err(COMMIT_FAULT)
    modifies storage
    ensures AllOrNothing(before, None, storage, r, Audited(before, k, step, mutation, actor, reason, clock))
  {
    var done := inner;
    if inner.Ok? {
      var appended := AppendTransition(storage, i, inner.value, mutation, actor, reason, clock);
      if appended.Err? { done := Err(appended.error); }
    }
    r := Close(storage, done);
  }

  method ReviewWithAudit(storage: Storage, k: IntentKey, review: Review, now: nat, op: Operation, to: ApprovalState,
                         mutation: MutationType, clock: nat -> nat) returns (r: Result<Intent, LifecycleError>)
    modifies storage
    ensures AllOrNothing(old(storage.View()), old(storage.snapshot), storage, r,
              if k !in old(storage.intents) then Effect(old(storage.View()), Err(IntentNotFound))
              else Audited(old(storage.View()), k, ReviewTo(old(storage.View()), k, review, now, op, to),
                           mutation, ReviewActor(review), review.reason, clock))
  {
    var before := LoadIntent(storage, k);
    if before.Err? { return Err(before.error); }
    var begun := Begin(storage);
    if begun.Err? { return Err(begun.error); }
    var inner := ReviewIntent(storage, k, review, now, op, to);
    ghost var step := ReviewTo(old(storage.View()), k, review, now, op, to);
    r := RecordAndClose(storage, old(storage.View()), k, before.value, inner, step, mutation, ReviewActor(review), review.reason, clock);
  }

  method ApproveWithAudit(storage: Storage, k: IntentKey, review: Review, now: nat, clock: nat -> nat)
    returns (r: Result<Intent, LifecycleError>)
    modifies storage
    ensures AllOrNothing(old(storage.View()), old(storage.snapshot), storage, r, ApproveAudited(old(storage.View()), k, review, now, clock))
  {
    r := ReviewWithAudit(storage, k, review, now, DoApprove, Approved, IntentApprove, clock);
  }

  method RejectWithAudit(storage: Storage, k: IntentKey, review: Review, now: nat, clock: nat -> nat)
    returns (r: Result<Intent, LifecycleError>)
    modifies storage
    ensures AllOrNothing(old(storage.View()), old(storage.snapshot), storage, r, RejectAudited(old(storage.View()), k, review, now, clock))
  {
    r := ReviewWithAudit(storage, k, review, now, DoReject, Rejected, IntentReject, clock);
  }

  method ExpireWithAudit(storage: Storage, k: IntentKey, now: nat, clock: nat -> nat)
    returns (r: Result<Intent, LifecycleError>)
    modifies storage
    ensures AllOrNothing(old(storage.View()), old(storage.snapshot), storage, r, ExpireAudited(old(storage.View()), k, now, clock))
  {
    var before := LoadIntent(storage, k);
    if before.Err? { return Err(before.error); }
    var begun := Begin(storage);
    if begun.Err? { return Err(begun.error); }
    var inner := ExpireIntent(storage, k, now);
    ghost var step := Expire(old(storage.View()), k, now);
    r := RecordAndClose(storage, old(storage.View()), k, before.value, inner, step, IntentExpire, "system", None, clock);
  }

  /** Expire every listed intent, with one entry each. */
  method SweepList(storage: Storage, scope: Scope, due: seq<Intent>, now: nat, clock: nat -> nat)
    returns (r: Result<(), LifecycleError>)
    modifies storage
    ensures storage.snapshot == old(storage.snapshot)
    ensures r.Ok? ==> Effect(storage.View(), r) == SweepFrom(old(storage.View()), scope, due, 0, now, clock)
    ensures r.Err? ==> r.error != COMMIT_FAULT
    ensures r.Err? ==> (!storage.reliable && r.error == FAULT) ||
                       SweepFrom(old(storage.View()), scope, due, 0, now, clock).result == r
  {
    for i := 0 to |due|
      invariant storage.snapshot == old(storage.snapshot)
      invariant SweepFrom(old(storage.View()), scope, due, 0, now, clock) ==
                SweepFrom(storage.View(), scope, due, i, now, clock)
    {
      var updated := ExpireIntent(storage, IntentKey(scope, due[i].id), now);
      if updated.Err? { return Err(updated.error); }
      var appended := AppendTransition(storage, due[i], updated.value, IntentExpire, "system", None, clock);
      if appended.Err? { return Err(appended.error); }
    }
    r := Ok(());
  }

  method ExpireDueWithAudit(storage: Storage, scope: Scope, now: nat, limit: Option<nat>, clock: nat -> nat)
    returns (r: Result<(), LifecycleError>, ghost due: seq<Intent>)
    requires KeyedIntents(storage.intents)
    modifies storage
    ensures exists full :: IsDueList(old(storage.intents), scope, now, full) &&
              due == if limit.Some? && limit.value < |full| then full[..limit.value] else full
    ensures AllOrNothing(old(storage.View()), old(storage.snapshot), storage, r, Sweep(old(storage.View()), scope, due, now, clock))
  {
    var listed, full := ListExpired(storage, scope, now, limit);
    due := if limit.Some? && limit.value < |full| then full[..limit.value] else full;
    if listed.Err? { return Err(StorageError(listed.error)), due; }
    var begun := Begin(storage);
    if begun.Err? { return Err(begun.error), due; }
    var inner := SweepList(storage, scope, listed.value, now, clock);
    r := Close(storage, inner);
  }

  // ---------------------------------------------------------------------------
  // Commit
  // ---------------------------------------------------------------------------

  /** Stale dimensions found one binding at a time. */
  method CollectStale(storage: Storage, i: Intent, c: Current) returns (r: Result<seq<Dimension>, CommitError>)
    ensures r.Ok? ==> r.value == StaleDimensions(storage.View(), i, c)
    ensures r.Err? ==> !storage.reliable && r.error == CommitStorage(StorageFault)
  {
    var stale := BindingDimensions(i, c);
    ghost var goal := stale + PreImageDimensions(storage.View(), i.preImages);
    assert i.preImages[0..] == i.preImages;
    for n := 0 to |i.preImages|
      invariant stale + PreImageDimensions(storage.View(), i.preImages[n..]) == goal
    {
      var p := i.preImages[n];
      assert i.preImages[n..][1..] == i.preImages[n + 1..];
      var got := storage.Fetch(p.key);
      if got.Err? { return Err(CommitStorage(got.error)); }
      var actual := if got.value.Some? then Some(got.value.value.version) else None;
      ghost var rest := PreImageDimensions(storage.View(), i.preImages[n + 1..]);
      if actual != Some(p.version) {
        var d := PreImageVersion(p.key, p.version, actual);
        assert (stale + [d]) + rest == stale + ([d] + rest);
        stale := stale + [d];
      } else {
        assert [] + rest == rest;
      }
    }
    assert stale + [] == stale;
    r := Ok(stale);
  }

  method ValidateCommitBindings(storage: Storage, scope: Scope, verified: Option<string>, c: Current, now: nat)
    returns (r: Result<Intent, CommitError>)
    ensures r == ValidateBindings(storage.View(), scope, verified, c, now) ||
            (!storage.reliable && r == Err(CommitStorage(StorageFault)))
  {
    if verified.None? { return Err(Token(BadToken)); }
    var k := IntentKey(scope, verified.value);
    var loaded := LoadIntent(storage, k);
    if loaded.Err? {
      return Err(if loaded.error == IntentNotFound then Token(TokenNotFound) else CommitStorage(StorageFault));
    }
    var i := loaded.value;
    if i.id != verified.value || i.scope != scope { return Err(Token(TokenNotFound)); }
    var bad := ValidateState(i, now);
    if bad.Some? { return Err(Token(bad.value)); }
    if i.operationHash != c.operationHash { return Err(IntentMismatch(i.operationHash, c.operationHash)); }
    if !c.authorized { return Err(AuthorizationFailed); }
    var stale := CollectStale(storage, i, c);
    if stale.Err? { return Err(stale.error); }
    if stale.value != [] { return Err(IntentStale(stale.value)); }
    r := Ok(i);
  }

  /** Record a refused commit in a transaction of its own. */
  method AppendValidationFailure(storage: Storage, k: IntentKey, e: CommitError, actor: Option<string>, clock: nat -> nat)
    returns (r: Result<(), CommitError>)
    requires k in storage.intents
    modifies storage
    ensures storage.snapshot == old(storage.snapshot)
    ensures r.Ok? ==> storage.View() == Record(old(storage.View()), FailureEntry(old(storage.intents)[k], e, actor), clock)
    ensures r.Err? ==> storage.View() == old(storage.View())
    ensures storage.reliable && storage.ownsAuditLog && old(storage.snapshot) == None ==> r.Ok?
  {
    var loaded := LoadIntent(storage, k);
    if loaded.Err? { return Err(CommitStorage(StorageFault)); }
    var begun := Begin(storage);
    if begun.Err? { return Err(CommitStorage(StorageFault)); }
    var appended := storage.AppendAudit(FailureEntry(loaded.value, e, actor), clock);
    if appended.Err? {
      storage.AbortTx();
      return Err(CommitStorage(appended.error));
    }
    var committed := storage.CommitTx();
    if committed.Err? {
      storage.AbortTx();
      return Err(CommitStorage(committed.error));
    }
    r := Ok(());
  }

  /** Validate, then run the bound transaction with the state change as its hook. */
  method CommitTransactionIntent(storage: Storage, env: Env, sha: string -> string, transaction: Transaction,
                                 req: CommitRequest) returns (r: Result<(Intent, seq<Entity>), CommitError>)
    requires req.tx == transaction.Value() && env.accepts == storage.accepts
    modifies storage
    ensures storage.snapshot == old(storage.snapshot)
    ensures r.Ok? || (storage.reliable && storage.ownsAuditLog && old(storage.snapshot) == None) ==>
      CommitOutcome(storage.View(), r) == CommitIntent(env, sha, old(storage.View()), req)
    ensures r.Err? ==> storage.rows == old(storage.rows) && storage.links == old(storage.links) && storage.intents == old(storage.intents)
  {
    var valid := ValidateCommitBindings(storage, req.scope, req.verified, Presented(req, sha), req.now);
    if valid.Err? {
      var e := valid.error;
      if e.IntentMismatch? || e.IntentStale? {
        var recorded := AppendValidationFailure(storage, IntentKey(req.scope, req.verified.value), e, req.actor, env.clock);
        if recorded.Err? { return Err(recorded.error); }
      }
      return Err(e);
    }
    var i := valid.value;
    var expected := CommitExpectedState(i);
    if expected.Err? { return Err(CommitFailed(InvalidOperation("decision"))); }
    var out := transaction.CommitWithStorageHook(storage, env, req.actor, req.attribution, Some(LineageOf(i, None)),
                                                 CommitHook(IntentKey(req.scope, i.id), expected.value));
    if out.Err? { return Err(ExecutionError(out.error)); }
    r := Ok((out.value.1, out.value.0));
  }
}
