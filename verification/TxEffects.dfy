/** What a committed transaction does to rows and log, one operation at a time. */
module TxEffects {
  import opened Prelude
  import opened Json
  import opened Audit
  import opened Store
  import opened TxSpec

  // ---------------------------------------------------------------------------
  // One audit entry per staged operation, in staged order
  // ---------------------------------------------------------------------------

  function TargetOf(op: StagedOp): Key
  {
    match op
    case EntityOp(w) => w.entity.key
    case LinkCreateOp(l) => ForwardKey(l.ident)
    case LinkDeleteOp(l) => ForwardKey(l.ident)
  }

  function KindOf(op: StagedOp): MutationType
  {
    match op
    case EntityOp(w) => w.mutation
    case LinkCreateOp(_) => LinkCreate
    case LinkDeleteOp(_) => LinkDelete
  }

  /** The data a row holds after the operation, `None` for removals. */
  function DataOf(op: StagedOp): Option<Json>
  {
    match op
    case EntityOp(w) => if w.mutation == EntityDelete then None else Some(w.entity.data)
    case LinkCreateOp(l) => Some(LinkData(l))
    case LinkDeleteOp(_) => None
  }

  predicate EntryFor(op: StagedOp, e: AuditEntry, ctx: Context)
  {
    && e.key == TargetOf(op) && e.mutation == KindOf(op) && e.dataAfter == DataOf(op)
    && e.transactionId == Some(ctx.txId) && e.attribution == ctx.attribution && e.lineage == ctx.lineage
    && e.actor == (if ctx.actor.Some? then ctx.actor.value else "anonymous")
  }

  /** Rows are stored under their own key. */
  predicate KeyedRows(rows: map<Key, Entity>)
  {
    forall k :: k in rows ==> rows[k].key == k
  }

  lemma {:induction false} ApplyOpEntry(p: Progress, op: StagedOp, ctx: Context)
    requires Stageable(op) && KeyedRows(p.db.rows) && ApplyOp(p, op, ctx).Ok?
    ensures var q := ApplyOp(p, op, ctx).value;
            && q.db.log == p.db.log && q.db.intents == p.db.intents && KeyedRows(q.db.rows)
            && |q.entries| == |p.entries| + 1 && q.entries[..|p.entries|] == p.entries
            && EntryFor(op, q.entries[|p.entries|], ctx)
  {
  }

  lemma {:induction false} ApplyEntries(p: Progress, ops: seq<StagedOp>, i: nat, ctx: Context)
    requires i <= |ops| && KeyedRows(p.db.rows)
    requires forall j :: i <= j < |ops| ==> Stageable(ops[j])
    requires ApplyFrom(p, ops, i, ctx).Ok?
    ensures var q := ApplyFrom(p, ops, i, ctx).value;
            && q.db.log == p.db.log && q.db.intents == p.db.intents && KeyedRows(q.db.rows)
            && |q.entries| == |p.entries| + (|ops| - i) && q.entries[..|p.entries|] == p.entries
            && forall j :: i <= j < |ops| ==> EntryFor(ops[j], q.entries[|p.entries| + j - i], ctx)
    decreases |ops| - i
  {
    if i < |ops| {
      ApplyOpEntry(p, ops[i], ctx);
      var next := ApplyOp(p, ops[i], ctx).value;
      ApplyEntries(next, ops, i + 1, ctx);
      var q := ApplyFrom(p, ops, i, ctx).value;
      assert q.entries[..|p.entries|] == q.entries[..|next.entries|][..|p.entries|];
      forall j | i <= j < |ops| ensures EntryFor(ops[j], q.entries[|p.entries| + j - i], ctx) {
        if j == i {
          assert q.entries[..|next.entries|][|p.entries|] == next.entries[|p.entries|];
        } else {
          assert |p.entries| + j - i == |next.entries| + j - (i + 1);
        }
      }
    }
  }

  /** Hooks that leave rows, links and log alone. */
  ghost predicate Quiet<T>(hook: Hook<T>)
  {
    forall d: Db :: var r := hook(d).0; r.rows == d.rows && r.links == d.links && r.log == d.log
  }

  predicate StoredEntryFor(op: StagedOp, e: AuditEntry, ctx: Context, id: nat)
  {
    e.id == id && EntryFor(op, e, ctx)
  }

  /** Executing buffers one entry and one written row per operation and leaves the log alone. */
  lemma {:induction false} ExecuteEntries(env: Env, db: Db, tx: Tx, ctx: Context)
    requires ValidTx(tx) && KeyedRows(db.rows) && Execute(env, db, tx, ctx).Ok?
    ensures var p := Execute(env, db, tx, ctx).value;
            && p.db.log == db.log && p.db.intents == db.intents && KeyedRows(p.db.rows)
            && |p.entries| == |tx.ops| && |p.written| == |tx.ops|
            && forall i :: 0 <= i < |tx.ops| ==> EntryFor(tx.ops[i], p.entries[i], ctx)
  {
    var start := Progress(db, [], []);
    ApplyEntries(start, tx.ops, 0, ctx);
    ApplyWritten(start, tx.ops, 0, ctx);
  }

  lemma {:induction false} StoredKeepsFor(op: StagedOp, stored: AuditEntry, e: AuditEntry, ctx: Context, id: nat)
    requires EntryFor(op, e, ctx) && StoredAs(stored, e, id)
    ensures StoredEntryFor(op, stored, ctx, id)
  {
  }

  /** The log of `out` is the log of `db` plus one entry per operation of the transaction. */
  ghost predicate LogsEveryOp(db: Db, tx: Tx, ctx: Context, out: Db)
  {
    && |out.log.entries| == |db.log.entries| + |tx.ops|
    && out.log.entries[..|db.log.entries|] == db.log.entries
    && forall i :: 0 <= i < |tx.ops| ==>
         StoredEntryFor(tx.ops[i], out.log.entries[|db.log.entries| + i], ctx, db.log.nextId + i + 1)
  }

  lemma {:induction false} LoggedEveryOp(env: Env, db: Db, tx: Tx, ctx: Context)
    requires ValidTx(tx) && KeyedRows(db.rows) && Execute(env, db, tx, ctx).Ok?
    ensures LogsEveryOp(db, tx, ctx, Logged(env, Execute(env, db, tx, ctx).value))
  {
    ExecuteEntries(env, db, tx, ctx);
    var p := Execute(env, db, tx, ctx).value;
    AppendAllEntries(db.log, p.entries, env.clock);
    var log := AppendAll(db.log, p.entries, env.clock);
    forall i | 0 <= i < |tx.ops|
      ensures StoredEntryFor(tx.ops[i], log.entries[|db.log.entries| + i], ctx, db.log.nextId + i + 1)
    {
      StoredKeepsFor(tx.ops[i], log.entries[|db.log.entries| + i], p.entries[i], ctx, db.log.nextId + i + 1);
    }
  }

  /**
   A successful commit appends exactly one entry per staged operation, in staged
   order, all with the transaction's id; a failed one leaves the state alone.
   */
  lemma {:induction false} CommitLogsEveryOp<T>(env: Env, db: Db, tx: Tx, ctx: Context, hook: Hook<T>)
    requires ValidTx(tx) && KeyedRows(db.rows) && Quiet(hook)
    ensures var out := Commit(env, db, tx, ctx, hook);
            if out.result.Err? then out.db == db
            else LogsEveryOp(db, tx, ctx, out.db) && |out.result.value.0| == |tx.ops|
  {
    if Commit(env, db, tx, ctx, hook).result.Ok? {
      LoggedEveryOp(env, db, tx, ctx);
      ExecuteEntries(env, db, tx, ctx);
    }
  }

  lemma {:induction false} ApplyWritten(p: Progress, ops: seq<StagedOp>, i: nat, ctx: Context)
    requires i <= |ops| && ApplyFrom(p, ops, i, ctx).Ok?
    requires forall j :: i <= j < |ops| ==> Stageable(ops[j])
    ensures |ApplyFrom(p, ops, i, ctx).value.written| == |p.written| + (|ops| - i)
    decreases |ops| - i
  {
    if i < |ops| { ApplyWritten(ApplyOp(p, ops[i], ctx).value, ops, i + 1, ctx); }
  }

  // ---------------------------------------------------------------------------
  // Folding the log
  // ---------------------------------------------------------------------------

  /** The effect an audit entry records on the row it names. */
  function FoldEntry(rows: map<Key, Entity>, e: AuditEntry): map<Key, Entity>
  {
    if e.mutation in {EntityCreate, EntityUpdate, EntityRevert, LinkCreate} && e.dataAfter.Some? then
      rows[e.key := Entity(e.key, e.version, e.dataAfter.value)]
    else if e.mutation in {EntityDelete, LinkDelete} then rows - {e.key}
    else rows
  }

  function Fold(rows: map<Key, Entity>, entries: seq<AuditEntry>): map<Key, Entity>
    decreases |entries|
  {
    if entries == [] then rows
    else FoldEntry(Fold(rows, entries[..|entries| - 1]), entries[|entries| - 1])
  }

  /** The rows rebuilt from the log alone. */
  function Rebuilt(log: Log): map<Key, Entity>
  {
    Fold(map[], log.entries)
  }

  /** Everything but the reverse-index rows, which no entry mentions. */
  function Visible(rows: map<Key, Entity>): map<Key, Entity>
  {
    map k | k in rows && k.collection != LINKS_REV :: rows[k]
  }

  lemma {:induction false} FoldVisible(a: map<Key, Entity>, b: map<Key, Entity>, e: AuditEntry)
    requires Visible(a) == Visible(b)
    ensures Visible(FoldEntry(a, e)) == Visible(FoldEntry(b, e))
  {
    forall k: Key | k.collection != LINKS_REV
      ensures k in FoldEntry(a, e) <==> k in FoldEntry(b, e)
      ensures k in FoldEntry(a, e) ==> FoldEntry(a, e)[k] == FoldEntry(b, e)[k]
    {
      assert k in Visible(a) <==> k in a;
      assert k in Visible(b) <==> k in b;
    }
  }

  /** The stored id and time of an entry do not matter to the fold. */
  lemma {:induction false} FoldStored(rows: map<Key, Entity>, stored: AuditEntry, e: AuditEntry, id: nat)
    requires StoredAs(stored, e, id)
    ensures FoldEntry(rows, stored) == FoldEntry(rows, e)
  {
  }

  lemma {:induction false} SameVisible(a: map<Key, Entity>, b: map<Key, Entity>)
    requires forall k: Key :: k.collection != LINKS_REV ==> (k in a <==> k in b)
    requires forall k: Key :: k.collection != LINKS_REV && k in a && k in b ==> a[k] == b[k]
    ensures Visible(a) == Visible(b)
  {
  }

  lemma {:induction false} PutLinkRows(db: Db, l: Link)
    ensures Visible(PutLink(db, l).rows) == Visible(db.rows[ForwardKey(l.ident) := ForwardRow(l)])
  {
    SameVisible(PutLink(db, l).rows, db.rows[ForwardKey(l.ident) := ForwardRow(l)]);
  }

  lemma {:induction false} RemoveLinkRows(db: Db, l: LinkIdent)
    ensures Visible(RemoveLink(db, l).rows) == Visible(db.rows - {ForwardKey(l)})
  {
    SameVisible(RemoveLink(db, l).rows, db.rows - {ForwardKey(l)});
  }

  /** Each applied operation changes the rows the way its entry says. */
  lemma {:induction false} ApplyOpFolds(p: Progress, op: StagedOp, ctx: Context)
    requires Stageable(op) && KeyedRows(p.db.rows) && ApplyOp(p, op, ctx).Ok?
    ensures var q := ApplyOp(p, op, ctx).value;
            |q.entries| == |p.entries| + 1 &&
            Visible(q.db.rows) == Visible(FoldEntry(p.db.rows, q.entries[|p.entries|]))
  {
    var q := ApplyOp(p, op, ctx).value;
    match op
    case EntityOp(w) =>
    case LinkCreateOp(l) => PutLinkRows(p.db, l);
    case LinkDeleteOp(l) => RemoveLinkRows(p.db, l.ident);
  }

  lemma {:induction false} FoldSnoc(rows: map<Key, Entity>, entries: seq<AuditEntry>, e: AuditEntry)
    ensures Fold(rows, entries + [e]) == FoldEntry(Fold(rows, entries), e)
  {
    assert (entries + [e])[..|entries|] == entries;
  }

  /** Folding a longer log is folding the rest over what the prefix gives. */
  lemma {:induction false} FoldConcat(rows: map<Key, Entity>, a: seq<AuditEntry>, b: seq<AuditEntry>)
    ensures Fold(rows, a + b) == Fold(Fold(rows, a), b)
    decreases |b|
  {
    if b == [] {
      assert a + b == a;
    } else {
      var init, last := b[..|b| - 1], b[|b| - 1];
      FoldConcat(rows, a, init);
      assert a + b == (a + init) + [last];
      FoldSnoc(rows, a + init, last);
    }
  }

  lemma {:induction false} FoldVisibleAll(a: map<Key, Entity>, b: map<Key, Entity>, entries: seq<AuditEntry>)
    requires Visible(a) == Visible(b)
    ensures Visible(Fold(a, entries)) == Visible(Fold(b, entries))
    decreases |entries|
  {
    if entries != [] {
      var init, last := entries[..|entries| - 1], entries[|entries| - 1];
      FoldVisibleAll(a, b, init);
      FoldVisible(Fold(a, init), Fold(b, init), last);
    }
  }

  lemma {:induction false} FoldHead(rows: map<Key, Entity>, entries: seq<AuditEntry>)
    requires entries != []
    ensures Fold(rows, entries) == Fold(FoldEntry(rows, entries[0]), entries[1..])
  {
    assert entries == [entries[0]] + entries[1..];
    FoldConcat(rows, [entries[0]], entries[1..]);
    FoldSnoc(rows, [], entries[0]);
    assert [] + [entries[0]] == [entries[0]];
  }

  lemma {:induction false} SplitNews(p: seq<AuditEntry>, next: seq<AuditEntry>, q: seq<AuditEntry>)
    requires |next| == |p| + 1 && |next| <= |q| && q[..|next|] == next
    ensures q[|p|..] != [] && q[|p|..][0] == next[|p|] && q[|p|..][1..] == q[|next|..]
  {
    assert q[..|next|][|p|] == next[|p|];
  }

  /** Applying a run of operations folds their entries. */
  lemma {:induction false} ApplyFolds(p: Progress, ops: seq<StagedOp>, i: nat, ctx: Context)
    requires i <= |ops| && KeyedRows(p.db.rows)
    requires forall j :: i <= j < |ops| ==> Stageable(ops[j])
    requires ApplyFrom(p, ops, i, ctx).Ok?
    ensures var q := ApplyFrom(p, ops, i, ctx).value;
            |p.entries| <= |q.entries| &&
            Visible(q.db.rows) == Visible(Fold(p.db.rows, q.entries[|p.entries|..]))
    decreases |ops| - i
  {
    var q := ApplyFrom(p, ops, i, ctx).value;
    if i == |ops| {
      assert q.entries[|p.entries|..] == [];
    } else {
      var next := ApplyOp(p, ops[i], ctx).value;
      ApplyOpEntry(p, ops[i], ctx);
      ApplyOpFolds(p, ops[i], ctx);
      ApplyEntries(next, ops, i + 1, ctx);
      ApplyFolds(next, ops, i + 1, ctx);
      SplitNews(p.entries, next.entries, q.entries);
      var news := q.entries[|p.entries|..];
      FoldHead(p.db.rows, news);
      FoldVisibleAll(next.db.rows, FoldEntry(p.db.rows, news[0]), news[1..]);
    }
  }

  /** Storing a batch in the log does not change what it folds to. */
  lemma {:induction false} FoldAppended(rows: map<Key, Entity>, log: Log, entries: seq<AuditEntry>, clock: nat -> nat)
    ensures var r := AppendAll(log, entries, clock);
            Fold(rows, r.entries) == Fold(Fold(rows, log.entries), entries)
    decreases |entries|
  {
    if entries != [] {
      var next := Append(log, entries[0], clock);
      FoldAppended(rows, next, entries[1..], clock);
      FoldSnoc(rows, log.entries, next.entries[|log.entries|]);
      assert next.entries == log.entries + [next.entries[|log.entries|]];
      FoldStored(Fold(rows, log.entries), next.entries[|log.entries|], entries[0], next.nextId);
      FoldHead(Fold(rows, log.entries), entries);
    }
  }

  /** The audit log explains every row: folding it gives the store. */
  ghost predicate Reconstructs(db: Db)
  {
    Visible(Rebuilt(db.log)) == Visible(db.rows)
  }

  /** Committing keeps the log a complete account of the rows. */
  lemma {:induction false} CommitReconstructs<T>(env: Env, db: Db, tx: Tx, ctx: Context, hook: Hook<T>)
    requires ValidTx(tx) && KeyedRows(db.rows) && Quiet(hook) && Reconstructs(db)
    ensures var out := Commit(env, db, tx, ctx, hook);
            KeyedRows(out.db.rows) && Reconstructs(out.db)
  {
    var out := Commit(env, db, tx, ctx, hook);
    if out.result.Ok? {
      var start := Progress(db, [], []);
      ApplyEntries(start, tx.ops, 0, ctx);
      ApplyFolds(start, tx.ops, 0, ctx);
      var p := Execute(env, db, tx, ctx).value;
      assert p.entries[0..] == p.entries;
      FoldAppended(map[], db.log, p.entries, env.clock);
      FoldVisibleAll(Rebuilt(db.log), db.rows, p.entries);
    }
  }
}
