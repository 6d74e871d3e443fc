/** Transactions as the program runs them: staging, then the commit sequence on the adapter. */
module Transactions {
  import opened Prelude
  import opened Json
  import opened Audit
  import opened Store
  import opened TxSpec

  predicate AppliesTo(p: Progress, op: StagedOp, ctx: Context, q: Progress)
  {
    ApplyOp(p, op, ctx) == Ok(q)
  }

  /** Each progress follows from the one before it by the next operation. */
  ghost predicate Traced(trace: seq<Progress>, ops: seq<StagedOp>, ctx: Context)
  {
    1 <= |trace| <= |ops| + 1 && forall i :: 0 <= i && i + 1 < |trace| ==> AppliesTo(trace[i], ops[i], ctx, trace[i + 1])
  }

  /** The operation after the trace fails with `e`. */
  predicate StopsWith(trace: seq<Progress>, ops: seq<StagedOp>, ctx: Context, e: Error)
  {
    1 <= |trace| <= |ops| && ApplyOp(trace[|trace| - 1], ops[|trace| - 1], ctx) == Err(e)
  }

  lemma {:induction false} TraceNext(trace: seq<Progress>, ops: seq<StagedOp>, ctx: Context, q: Progress)
    requires Traced(trace, ops, ctx) && |trace| <= |ops| && AppliesTo(trace[|trace| - 1], ops[|trace| - 1], ctx, q)
    ensures Traced(trace + [q], ops, ctx)
  {
    var longer := trace + [q];
    forall i | 0 <= i && i + 1 < |longer| ensures AppliesTo(longer[i], ops[i], ctx, longer[i + 1]) {
      if i + 1 < |trace| { assert AppliesTo(trace[i], ops[i], ctx, trace[i + 1]); }
    }
  }

  /** A trace leads from the start of the loop to any of its states. */
  lemma {:induction false} TraceApplies(trace: seq<Progress>, ops: seq<StagedOp>, i: nat, ctx: Context)
    requires Traced(trace, ops, ctx) && i < |trace|
    ensures ApplyFrom(trace[0], ops, 0, ctx) == ApplyFrom(trace[i], ops, i, ctx)
  {
    if i > 0 {
      TraceApplies(trace, ops, i - 1, ctx);
      assert AppliesTo(trace[i - 1], ops[i - 1], ctx, trace[i - 1 + 1]);
    }
  }

  lemma {:induction false} TraceFails(trace: seq<Progress>, ops: seq<StagedOp>, ctx: Context, e: Error)
    requires Traced(trace, ops, ctx) && StopsWith(trace, ops, ctx, e)
    ensures ApplyFrom(trace[0], ops, 0, ctx) == Err(e)
  {
    TraceApplies(trace, ops, |trace| - 1, ctx);
  }

  class Transaction {
    const id: string
    const isolation: Isolation
    var ops: seq<StagedOp>
    var readSet: seq<ReadRef>
    var scanSet: seq<ScanRef>

    function Value(): Tx
      reads this
    {
      Tx(id, ops, readSet, scanSet, isolation)
    }

    predicate Valid()
      reads this
    {
      ValidTx(Value())
    }

    constructor (id: string, isolation: Isolation)
      ensures Valid() && Value() == Tx(id, [], [], [], isolation)
    {
      this.id, this.isolation := id, isolation;
      ops, readSet, scanSet := [], [], [];
    }

    // -------------------------------------------------------------------------
    // Staging
    // -------------------------------------------------------------------------

    method RecordRead(key: Key, observed: nat) returns (r: Result<(), Error>)
      requires Valid()
      modifies this`readSet
      ensures Valid()
      ensures r.Err? <==> IsSerializable(isolation) && |old(readSet)| >= MAX_READS
      ensures readSet == if IsSerializable(isolation) && r.Ok? then old(readSet) + [ReadRef(key, observed)] else old(readSet)
    {
      if !IsSerializable(isolation) { return Ok(()); }
      if |readSet| >= MAX_READS { return Err(InvalidArgument("tracked reads")); }
      readSet := readSet + [ReadRef(key, observed)];
      r := Ok(());
    }

    method RecordScanRead(collection: string, observed: nat) returns (r: Result<(), Error>)
      requires Valid()
      modifies this`scanSet
      ensures Valid()
      ensures r.Err? <==> IsSerializable(isolation) && |old(scanSet)| >= MAX_READS
      ensures scanSet == if IsSerializable(isolation) && r.Ok? then old(scanSet) + [ScanRef(collection, observed)] else old(scanSet)
    {
      if !IsSerializable(isolation) { return Ok(()); }
      if |scanSet| >= MAX_READS { return Err(InvalidArgument("tracked scan reads")); }
      scanSet := scanSet + [ScanRef(collection, observed)];
      r := Ok(());
    }

    method Stage(op: StagedOp) returns (r: Result<(), Error>)
      requires Valid() && Stageable(op)
      modifies this`ops
      ensures Valid()
      ensures r.Err? <==> |old(ops)| >= MAX_OPS
      ensures ops == if r.Ok? then old(ops) + [op] else old(ops)
    {
      if |ops| >= MAX_OPS { return Err(InvalidArgument("operations")); }
      ops := ops + [op];
      r := Ok(());
    }

    method Create(entity: Entity) returns (r: Result<(), Error>)
      requires Valid()
      modifies this`ops
      ensures Valid()
      ensures r.Err? <==> |old(ops)| >= MAX_OPS
      ensures ops == if r.Err? then old(ops)
                     else old(ops) + [EntityOp(WriteOp(entity, 0, None, EntityCreate, PresentEntity))]
    {
      r := Stage(EntityOp(WriteOp(entity, 0, None, EntityCreate, PresentEntity)));
    }

    method Update(entity: Entity, expected: nat, before: Option<Json>) returns (r: Result<(), Error>)
      requires Valid()
      modifies this`ops
      ensures Valid()
      ensures r.Err? <==> |old(ops)| >= MAX_OPS
      ensures ops == if r.Err? then old(ops)
                     else old(ops) + [EntityOp(WriteOp(entity, expected, before, EntityUpdate, PresentEntity))]
    {
      r := Stage(EntityOp(WriteOp(entity, expected, before, EntityUpdate, PresentEntity)));
    }

    method PatchUpdate(entity: Entity, expected: nat, before: Option<Json>, patch: Json)
      returns (r: Result<(), Error>)
      requires Valid()
      modifies this`ops
      ensures Valid()
      ensures r.Err? <==> |old(ops)| >= MAX_OPS
      ensures ops == if r.Err? then old(ops)
                     else old(ops) + [EntityOp(WriteOp(entity, expected, before, EntityUpdate, Patch(patch)))]
    {
      r := Stage(EntityOp(WriteOp(entity, expected, before, EntityUpdate, Patch(patch))));
    }

    method Delete(key: Key, expected: nat, before: Option<Json>) returns (r: Result<(), Error>)
      requires Valid()
      modifies this`ops
      ensures Valid()
      ensures r.Err? <==> |old(ops)| >= MAX_OPS
      ensures ops == if r.Err? then old(ops)
                     else old(ops) + [EntityOp(WriteOp(Entity(key, expected, Null), expected, before, EntityDelete, PresentEntity))]
    {
      r := Stage(EntityOp(WriteOp(Entity(key, expected, Null), expected, before, EntityDelete, PresentEntity)));
    }

    method CreateLink(link: Link) returns (r: Result<(), Error>)
      requires Valid()
      modifies this`ops
      ensures Valid()
      ensures r.Err? <==> |old(ops)| >= MAX_OPS
      ensures ops == if r.Err? then old(ops) else old(ops) + [LinkCreateOp(link)]
    {
      r := Stage(LinkCreateOp(link));
    }

    method DeleteLink(link: Link) returns (r: Result<(), Error>)
      requires Valid()
      modifies this`ops
      ensures Valid()
      ensures r.Err? <==> |old(ops)| >= MAX_OPS
      ensures ops == if r.Err? then old(ops) else old(ops) + [LinkDeleteOp(link)]
    {
      r := Stage(LinkDeleteOp(link));
    }

    // -------------------------------------------------------------------------
    // Commit
    // -------------------------------------------------------------------------

    /** Phase 1 for one operation: reads only. */
    method CheckStaged(storage: Storage, env: Env, op: StagedOp) returns (r: Result<(), Error>)
      requires env.accepts == storage.accepts
      ensures r.Ok? ==> CheckOp(env, storage.View(), op) == None
      ensures r.Err? ==> (!storage.reliable && r.error == StorageFault) || CheckOp(env, storage.View(), op) == Some(r.error)
    {
      match op
      case EntityOp(w) =>
        var got := storage.Fetch(w.entity.key);
        if got.Err? { return Err(got.error); }
        var current := got.value;
        var version := if current.Some? then current.value.version else 0;
        if !VersionOk(w.mutation, version, w.expected) {
          return Err(ConflictingVersion(w.expected, version, current));
        }
        if w.mutation in {EntityCreate, EntityUpdate} && !storage.accepts(w.entity.key.collection, w.entity.data) {
          return Err(SchemaViolation);
        }
        r := Ok(());
      case LinkCreateOp(l) =>
        var got := storage.Fetch(l.ident.source);
        if got.Err? { return Err(got.error); }
        if got.value.None? { return Err(NotFound("source entity")); }
        got := storage.Fetch(l.ident.target);
        if got.Err? { return Err(got.error); }
        if got.value.None? { return Err(NotFound("target entity")); }
        got := storage.Fetch(ForwardKey(l.ident));
        if got.Err? { return Err(got.error); }
        if got.value.Some? { return Err(AlreadyExists("link")); }
        r := Ok(());
      case LinkDeleteOp(l) =>
        var got := storage.Fetch(ForwardKey(l.ident));
        if got.Err? { return Err(got.error); }
        if got.value.None? { return Err(NotFound("link")); }
        r := Ok(());
    }

    /** Phases 1 and 1b. */
    method CheckAll(storage: Storage, env: Env) returns (r: Result<(), Error>)
      requires env.accepts == storage.accepts
      ensures r.Ok? ==> Validate(env, storage.View(), Value()) == None
      ensures r.Err? ==> (!storage.reliable && r.error == StorageFault) || Validate(env, storage.View(), Value()) == Some(r.error)
    {
      for i := 0 to |ops|
        invariant CheckFrom(env, storage.View(), ops, 0) == CheckFrom(env, storage.View(), ops, i)
      {
        var ok := CheckStaged(storage, env, ops[i]);
        if ok.Err? { return ok; }
      }
      if !IsSerializable(isolation) { return Ok(()); }
      for i := 0 to |readSet|
        invariant CheckReads(storage.View(), readSet, 0) == CheckReads(storage.View(), readSet, i)
      {
        var got := storage.Fetch(readSet[i].key);
        if got.Err? { return Err(got.error); }
        var version := if got.value.Some? then got.value.value.version else 0;
        if version != readSet[i].observed {
          return Err(ConflictingVersion(readSet[i].observed, version, got.value));
        }
      }
      var strict := isolation == SerializableStrict;
      for i := 0 to |scanSet|
        invariant CheckScans(env, strict, scanSet, 0) == CheckScans(env, strict, scanSet, i)
      {
        var fault: bool := *;
        if !storage.reliable && fault { return Err(StorageFault); }
        var now := env.signature(scanSet[i].collection, strict);
        if now != scanSet[i].observed { return Err(ConflictingVersion(scanSet[i].observed, now, None)); }
      }
      r := Ok(());
    }

    /** Phase 2 for one operation: one write, one buffered entry, one written row. */
    method ApplyStaged(storage: Storage, op: StagedOp, ctx: Context, pending: seq<AuditEntry>, written: seq<Entity>)
      returns (r: Result<(seq<AuditEntry>, seq<Entity>), Error>)
      modifies storage
      ensures storage.snapshot == old(storage.snapshot)
      ensures r.Ok? ==> ApplyOp(Progress(old(storage.View()), pending, written), op, ctx) ==
                        Ok(Progress(storage.View(), r.value.0, r.value.1))
      ensures r.Err? ==> (!storage.reliable && r.error == StorageFault) ||
                         ApplyOp(Progress(old(storage.View()), pending, written), op, ctx) == Err(r.error)
    {
      match op
      case EntityOp(w) =>
        var e := w.entity;
        match w.mutation {
          case EntityCreate =>
            var put := storage.Put(e);
            if put.Err? { return Err(put.error); }
            r := Ok((pending + [Entry(ctx, e.key, e.version, EntityCreate, None, Some(e.data))], written + [e]));
          case EntityUpdate =>
            var swapped := storage.CompareAndSwap(e, w.expected);
            if swapped.Err? { return Err(swapped.error); }
            var updated := swapped.value;
            r := Ok((pending + [Entry(ctx, updated.key, updated.version, EntityUpdate, w.dataBefore, Some(updated.data))],
                     written + [updated]));
          case EntityDelete =>
            var deleted := storage.Delete(e.key);
            if deleted.Err? { return Err(deleted.error); }
            r := Ok((pending + [Entry(ctx, e.key, e.version, EntityDelete, w.dataBefore, None)], written + [e]));
          case _ =>
            r := Ok((pending, written));
        }
      case LinkCreateOp(l) =>
        var put := storage.InsertLink(l);
        if put.Err? { return Err(put.error); }
        var row := ForwardRow(l);
        r := Ok((pending + [Entry(ctx, row.key, row.version, LinkCreate, None, Some(row.data))], written + [row]));
      case LinkDeleteOp(l) =>
        var got := storage.Fetch(ForwardKey(l.ident));
        if got.Err? { return Err(got.error); }
        if got.value.None? { return Err(NotFound("link")); }
        var row := got.value.value;
        var deleted := storage.DeleteLink(l.ident);
        if deleted.Err? { return Err(deleted.error); }
        r := Ok((pending + [Entry(ctx, row.key, row.version, LinkDelete, Some(row.data), None)], written + [row]));
    }

    /** Phase 2: the staged operations one after another; `trace` holds the progress before each. */
    method ApplyAll(storage: Storage, ctx: Context)
      returns (r: Result<(seq<Entity>, seq<AuditEntry>), Error>, ghost trace: seq<Progress>)
      modifies storage
      ensures storage.snapshot == old(storage.snapshot)
      ensures Traced(trace, ops, ctx) && trace[0] == Progress(old(storage.View()), [], [])
      ensures r.Ok? ==> |trace| == |ops| + 1 && trace[|ops|] == Progress(storage.View(), r.value.1, r.value.0)
      ensures r.Err? ==> (!storage.reliable && r.error == StorageFault) || StopsWith(trace, ops, ctx, r.error)
    {
      var written: seq<Entity>, pending: seq<AuditEntry> := [], [];
      trace := [Progress(storage.View(), [], [])];
      for i := 0 to |ops|
        invariant storage.snapshot == old(storage.snapshot)
        invariant |trace| == i + 1 && Traced(trace, ops, ctx) && trace[0] == Progress(old(storage.View()), [], [])
        invariant trace[i] == Progress(storage.View(), pending, written)
      {
        var step := ApplyStaged(storage, ops[i], ctx, pending, written);
        if step.Err? { return Err(step.error), trace; }
        pending, written := step.value.0, step.value.1;
        TraceNext(trace, ops, ctx, Progress(storage.View(), pending, written));
        trace := trace + [Progress(storage.View(), pending, written)];
      }
      r := Ok((written, pending));
    }

    method ExecuteOn(storage: Storage, env: Env, ctx: Context)
      returns (r: Result<(seq<Entity>, seq<AuditEntry>), Error>)
      requires env.accepts == storage.accepts
      modifies storage
      ensures storage.snapshot == old(storage.snapshot)
      ensures r.Ok? ==> Execute(env, old(storage.View()), Value(), ctx) ==
                        Ok(Progress(storage.View(), r.value.1, r.value.0))
      ensures r.Err? ==> (!storage.reliable && r.error == StorageFault) ||
                         Execute(env, old(storage.View()), Value(), ctx) == Err(r.error)
    {
      var ok := CheckAll(storage, env);
      if ok.Err? { return Err(ok.error); }
      ghost var trace;
      r, trace := ApplyAll(storage, ctx);
      if r.Ok? {
        TraceApplies(trace, ops, |ops|, ctx);
      } else if storage.reliable || r.error != StorageFault {
        TraceFails(trace, ops, ctx, r.error);
      }
    }

    /**
     The commit sequence: begin, execute, append the audit entries, run the hook,
     commit.  Whatever fails, the state is the one before the call; on success it
     is the one `Commit` describes.
     */
    method CommitWithStorageHook<T>(storage: Storage, env: Env, actor: Option<string>,
                                    attribution: Option<Attribution>, lineage: Option<Lineage>, hook: Hook<T>)
      returns (r: Result<(seq<Entity>, T), Error>)
      requires env.accepts == storage.accepts
      modifies storage
      ensures storage.snapshot == old(storage.snapshot)
      ensures r.Err? ==> storage.View() == old(storage.View())
      ensures r.Ok? ==> storage.ownsAuditLog && old(storage.snapshot) == None
      ensures r.Ok? || (storage.reliable && storage.ownsAuditLog && old(storage.snapshot) == None) ==>
        Outcome(storage.View(), r) ==
        Commit(env, old(storage.View()), Value(), Context(id, actor, attribution, lineage), hook)
    {
      if !storage.ownsAuditLog { return Err(InvalidOperation("storage adapter does not own an audit log")); }
      var begun := storage.BeginTx();
      if begun.Err? { return Err(begun.error); }
      var ctx := Context(id, actor, attribution, lineage);
      var executed := ExecuteOn(storage, env, ctx);
      if executed.Err? {
        storage.AbortTx();
        return Err(executed.error);
      }
      var written, pending := executed.value.0, executed.value.1;
      ghost var p := Progress(storage.View(), pending, written);
      for i := 0 to |pending|
        invariant storage.snapshot == Some(old(storage.View()))
        invariant storage.View() == p.db.(log := storage.log)
        invariant AppendAll(storage.log, pending[i..], env.clock) == AppendAll(p.db.log, pending, env.clock)
      {
        assert pending[i..][1..] == pending[i + 1..];
        var appended := storage.AppendAudit(pending[i], env.clock);
        if appended.Err? {
          storage.AbortTx();
          return Err(appended.error);
        }
      }
      assert storage.View() == Logged(env, p);
      var (after, hooked) := hook(storage.View());
      storage.Restore(after);
      if hooked.Err? {
        storage.AbortTx();
        return Err(hooked.error);
      }
      var committed := storage.CommitTx();
      if committed.Err? {
        storage.AbortTx();
        return Err(committed.error);
      }
      r := Ok((written, hooked.value));
    }
  }
}
