/** No lost updates: what the log proves about row versions. */
module Versions {
  import opened Prelude
  import opened Json
  import opened Audit
  import opened Store
  import opened TxSpec
  import opened TxEffects

  // ---------------------------------------------------------------------------
  // Every update entry bumps the version its predecessors left
  // ---------------------------------------------------------------------------

  /** An update entry raises by one the version the row had; transactions never revert. */
  predicate Bumps(rows: map<Key, Entity>, e: AuditEntry)
  {
    && e.mutation != EntityRevert
    && (e.mutation in {EntityCreate, EntityUpdate, LinkCreate} ==> e.dataAfter.Some?)
    && (e.mutation == EntityUpdate && e.key.collection != LINKS_REV ==>
          e.key in rows && e.version == rows[e.key].version + 1)
  }

  predicate Chained(rows: map<Key, Entity>, entries: seq<AuditEntry>)
    decreases |entries|
  {
    entries == [] ||
    (Chained(rows, entries[..|entries| - 1]) &&
     Bumps(Fold(rows, entries[..|entries| - 1]), entries[|entries| - 1]))
  }

  lemma {:induction false} ChainedSnoc(rows: map<Key, Entity>, entries: seq<AuditEntry>, e: AuditEntry)
    ensures Chained(rows, entries + [e]) <==> Chained(rows, entries) && Bumps(Fold(rows, entries), e)
  {
    assert (entries + [e])[..|entries|] == entries;
  }

  lemma {:induction false} ChainedConcat(rows: map<Key, Entity>, a: seq<AuditEntry>, b: seq<AuditEntry>)
    ensures Chained(rows, a + b) <==> Chained(rows, a) && Chained(Fold(rows, a), b)
    decreases |b|
  {
    if b == [] {
      assert a + b == a;
    } else {
      var init, last := b[..|b| - 1], b[|b| - 1];
      ChainedConcat(rows, a, init);
      FoldConcat(rows, a, init);
      assert a + b == (a + init) + [last];
      ChainedSnoc(rows, a + init, last);
    }
  }

  lemma {:induction false} ChainedHead(rows: map<Key, Entity>, entries: seq<AuditEntry>)
    requires entries != []
    ensures Chained(rows, entries) <==>
            Bumps(rows, entries[0]) && Chained(FoldEntry(rows, entries[0]), entries[1..])
  {
    assert entries == [entries[0]] + entries[1..];
    ChainedConcat(rows, [entries[0]], entries[1..]);
    ChainedSnoc(rows, [], entries[0]);
    FoldSnoc(rows, [], entries[0]);
    assert [] + [entries[0]] == [entries[0]];
  }

  lemma {:induction false} BumpsVisible(a: map<Key, Entity>, b: map<Key, Entity>, e: AuditEntry)
    requires Visible(a) == Visible(b)
    ensures Bumps(a, e) <==> Bumps(b, e)
  {
    assert e.key in Visible(a) <==> e.key in a && e.key.collection != LINKS_REV;
    assert e.key in Visible(b) <==> e.key in b && e.key.collection != LINKS_REV;
  }

  lemma {:induction false} ChainedVisible(a: map<Key, Entity>, b: map<Key, Entity>, entries: seq<AuditEntry>)
    requires Visible(a) == Visible(b)
    ensures Chained(a, entries) <==> Chained(b, entries)
    decreases |entries|
  {
    if entries != [] {
      var init, last := entries[..|entries| - 1], entries[|entries| - 1];
      ChainedVisible(a, b, init);
      FoldVisibleAll(a, b, init);
      BumpsVisible(Fold(a, init), Fold(b, init), last);
    }
  }

  lemma {:induction false} ApplyOpBumps(p: Progress, op: StagedOp, ctx: Context)
    requires Stageable(op) && ApplyOp(p, op, ctx).Ok?
    ensures var q := ApplyOp(p, op, ctx).value;
            |q.entries| == |p.entries| + 1 && Bumps(p.db.rows, q.entries[|p.entries|])
  {
  }

  lemma {:induction false} ApplyChained(p: Progress, ops: seq<StagedOp>, i: nat, ctx: Context)
    requires i <= |ops| && KeyedRows(p.db.rows)
    requires forall j :: i <= j < |ops| ==> Stageable(ops[j])
    requires ApplyFrom(p, ops, i, ctx).Ok?
    ensures var q := ApplyFrom(p, ops, i, ctx).value;
            |p.entries| <= |q.entries| && Chained(p.db.rows, q.entries[|p.entries|..])
    decreases |ops| - i
  {
    var q := ApplyFrom(p, ops, i, ctx).value;
    if i == |ops| {
      assert q.entries[|p.entries|..] == [];
    } else {
      var next := ApplyOp(p, ops[i], ctx).value;
      ApplyOpEntry(p, ops[i], ctx);
      ApplyOpFolds(p, ops[i], ctx);
      ApplyOpBumps(p, ops[i], ctx);
      ApplyEntries(next, ops, i + 1, ctx);
      ApplyChained(next, ops, i + 1, ctx);
      SplitNews(p.entries, next.entries, q.entries);
      var news := q.entries[|p.entries|..];
      ChainStep(p.db.rows, next.db.rows, news);
    }
  }

  lemma {:induction false} ChainStep(rows: map<Key, Entity>, next: map<Key, Entity>, news: seq<AuditEntry>)
    requires news != [] && Bumps(rows, news[0]) && Chained(next, news[1..])
    requires Visible(next) == Visible(FoldEntry(rows, news[0]))
    ensures Chained(rows, news)
  {
    ChainedHead(rows, news);
    ChainedVisible(next, FoldEntry(rows, news[0]), news[1..]);
  }

  lemma {:induction false} ChainedAppended(rows: map<Key, Entity>, log: Log, entries: seq<AuditEntry>, clock: nat -> nat)
    ensures Chained(rows, AppendAll(log, entries, clock).entries) <==>
            Chained(rows, log.entries) && Chained(Fold(rows, log.entries), entries)
    decreases |entries|
  {
    if entries != [] {
      var next := Append(log, entries[0], clock);
      var stored := next.entries[|log.entries|];
      var rows1 := Fold(rows, log.entries);
      ChainedAppended(rows, next, entries[1..], clock);
      assert next.entries == log.entries + [stored];
      ChainedSnoc(rows, log.entries, stored);
      FoldSnoc(rows, log.entries, stored);
      FoldStored(rows1, stored, entries[0], next.nextId);
      ChainedHead(rows1, entries);
    }
  }

  /** Committing keeps every update entry one above its predecessor. */
  lemma {:induction false} CommitChains<T>(env: Env, db: Db, tx: Tx, ctx: Context, hook: Hook<T>)
    requires ValidTx(tx) && KeyedRows(db.rows) && Quiet(hook) && Reconstructs(db)
    requires Chained(map[], db.log.entries)
    ensures Chained(map[], Commit(env, db, tx, ctx, hook).db.log.entries)
  {
    var out := Commit(env, db, tx, ctx, hook);
    if out.result.Ok? {
      var start := Progress(db, [], []);
      ApplyEntries(start, tx.ops, 0, ctx);
      ApplyChained(start, tx.ops, 0, ctx);
      var p := Execute(env, db, tx, ctx).value;
      assert p.entries[0..] == p.entries;
      ChainedAppended(map[], db.log, p.entries, env.clock);
      ChainedVisible(Rebuilt(db.log), db.rows, p.entries);
    }
  }

  // ---------------------------------------------------------------------------
  // Reading versions off the log
  // ---------------------------------------------------------------------------

  /** A row's life so far: the version it was created at and the updates since. */
  datatype Life = Gone | Alive(created: nat, updates: nat)

  function LifeOf(entries: seq<AuditEntry>, k: Key): Life
    decreases |entries|
  {
    if entries == [] then Gone
    else
      var e, before := entries[|entries| - 1], LifeOf(entries[..|entries| - 1], k);
      if e.key != k then before
      else match e.mutation
        case EntityCreate => Alive(e.version, 0)
        case LinkCreate => Alive(e.version, 0)
        case EntityUpdate => if before.Alive? then before.(updates := before.updates + 1) else Gone
        case EntityDelete => Gone
        case LinkDelete => Gone
        case _ => before
  }

  /** Along a chained log a row is at its created version plus the updates since. */
  lemma {:induction false} VersionCountsUpdates(entries: seq<AuditEntry>, k: Key)
    requires Chained(map[], entries) && k.collection != LINKS_REV
    ensures k in Fold(map[], entries) <==> LifeOf(entries, k).Alive?
    ensures k in Fold(map[], entries) ==>
              Fold(map[], entries)[k].version == LifeOf(entries, k).created + LifeOf(entries, k).updates
    decreases |entries|
  {
    if entries != [] {
      VersionCountsUpdates(entries[..|entries| - 1], k);
    }
  }

  predicate UpdateOf(e: AuditEntry, k: Key) { e.key == k && e.mutation == EntityUpdate }

  predicate CreateOf(e: AuditEntry, k: Key) { e.key == k && e.mutation in {EntityCreate, LinkCreate} }

  lemma {:induction false} ChainedPrefix(rows: map<Key, Entity>, entries: seq<AuditEntry>, n: nat)
    requires Chained(rows, entries) && n < |entries|
    ensures Chained(rows, entries[..n]) && Bumps(Fold(rows, entries[..n]), entries[n])
    ensures Fold(rows, entries[..n + 1]) == FoldEntry(Fold(rows, entries[..n]), entries[n])
  {
    assert entries == entries[..n] + entries[n..];
    ChainedConcat(rows, entries[..n], entries[n..]);
    ChainedHead(Fold(rows, entries[..n]), entries[n..]);
    assert entries[..n + 1] == entries[..n] + [entries[n]];
    FoldSnoc(rows, entries[..n], entries[n]);
  }

  lemma {:induction false} VersionStaysAbove(entries: seq<AuditEntry>, k: Key, i: nat, m: nat)
    requires Chained(map[], entries) && k.collection != LINKS_REV
    requires i < m <= |entries| && UpdateOf(entries[i], k)
    requires forall c :: i < c < m ==> !CreateOf(entries[c], k)
    ensures var rows := Fold(map[], entries[..m]); k in rows ==> rows[k].version >= entries[i].version
    decreases m
  {
    ChainedPrefix(map[], entries, m - 1);
    if m > i + 1 { VersionStaysAbove(entries, k, i, m - 1); }
  }

  /**
   Between two creations of a row no two committed updates start from the same
   version: the later one always produced the higher version.
   */
  lemma {:induction false} UpdatesNeverCollide(entries: seq<AuditEntry>, k: Key, i: nat, j: nat)
    requires Chained(map[], entries) && k.collection != LINKS_REV
    requires i < j < |entries| && UpdateOf(entries[i], k) && UpdateOf(entries[j], k)
    requires forall c :: i < c < j ==> !CreateOf(entries[c], k)
    ensures entries[i].version < entries[j].version
  {
    VersionStaysAbove(entries, k, i, j);
    ChainedPrefix(map[], entries, j);
  }

  // ---------------------------------------------------------------------------
  // One transaction never updates a row twice
  // ---------------------------------------------------------------------------

  predicate PositiveRows(rows: map<Key, Entity>)
  {
    forall k :: k in rows ==> rows[k].version >= 1
  }

  /** Creations carry a version of at least 1, as `Entity::new` gives them. */
  predicate PositiveOp(op: StagedOp)
  {
    op.EntityOp? && op.op.mutation == EntityCreate ==> op.op.entity.version >= 1
  }

  predicate UpdatesKey(op: StagedOp, k: Key)
  {
    op.EntityOp? && op.op.mutation == EntityUpdate && op.op.entity.key == k
  }

  predicate AllStageable(ops: seq<StagedOp>)
  {
    forall j :: 0 <= j < |ops| ==> Stageable(ops[j])
  }

  predicate AllPositive(ops: seq<StagedOp>)
  {
    forall j :: 0 <= j < |ops| ==> PositiveOp(ops[j])
  }

  /**
   The operation puts row `k` back to the checked version `v`: a creation at version 0,
   or a link creation that rewrites its reverse-index row at version 1.
   */
  predicate Resets(op: StagedOp, k: Key, v: nat)
  {
    || (op.EntityOp? && op.op.mutation == EntityCreate && op.op.entity.key == k && op.op.entity.version == 0 && v == 0)
    || (op.LinkCreateOp? && ReverseKey(op.link.ident) == k && v == 1)
  }

  predicate OffVersion(db: Db, k: Key, v: nat)
  {
    k in db.rows ==> db.rows[k].version != v
  }

  lemma {:induction false} StaysOff(env: Env, db: Db, p: Progress, op: StagedOp, ctx: Context, k: Key, v: nat)
    requires VersionOf(db, k) == v && OffVersion(p.db, k, v) && !Resets(op, k, v)
    requires Stageable(op) && CheckOp(env, db, op) == None && ApplyOp(p, op, ctx).Ok?
    ensures !UpdatesKey(op, k) && OffVersion(ApplyOp(p, op, ctx).value.db, k, v)
  {
  }

  lemma {:induction false} MovesOff(env: Env, db: Db, p: Progress, op: StagedOp, ctx: Context, k: Key)
    requires CheckOp(env, db, op) == None && UpdatesKey(op, k) && ApplyOp(p, op, ctx).Ok?
    ensures op.op.expected == VersionOf(db, k) && OffVersion(ApplyOp(p, op, ctx).value.db, k, VersionOf(db, k))
  {
  }

  /** Once a row has moved off the checked version, it is updated again only after an operation that resets it. */
  lemma {:induction false} UpdateNeedsReset(env: Env, db: Db, p: Progress, ops: seq<StagedOp>, i: nat, ctx: Context,
                                           k: Key, b: nat) returns (c: nat)
    requires i <= b < |ops| && OffVersion(p.db, k, VersionOf(db, k)) && UpdatesKey(ops[b], k)
    requires AllStageable(ops) && CheckFrom(env, db, ops, i) == None && ApplyFrom(p, ops, i, ctx).Ok?
    ensures i <= c < b && Resets(ops[c], k, VersionOf(db, k))
    decreases b - i
  {
    if Resets(ops[i], k, VersionOf(db, k)) {
      c := i;
    } else {
      StaysOff(env, db, p, ops[i], ctx, k, VersionOf(db, k));
      c := UpdateNeedsReset(env, db, ApplyOp(p, ops[i], ctx).value, ops, i + 1, ctx, k, b);
    }
  }

  lemma {:induction false} DoubleUpdateFrom(env: Env, db: Db, p: Progress, ops: seq<StagedOp>, i: nat, ctx: Context,
                                           k: Key, a: nat, b: nat) returns (c: nat)
    requires i <= a < b < |ops| && UpdatesKey(ops[a], k) && UpdatesKey(ops[b], k)
    requires AllStageable(ops) && CheckFrom(env, db, ops, i) == None && ApplyFrom(p, ops, i, ctx).Ok?
    ensures a < c < b && Resets(ops[c], k, VersionOf(db, k)) && ops[a].op.expected == VersionOf(db, k)
    decreases a - i
  {
    var next := ApplyOp(p, ops[i], ctx).value;
    if i < a {
      c := DoubleUpdateFrom(env, db, next, ops, i + 1, ctx, k, a, b);
    } else {
      MovesOff(env, db, p, ops[a], ctx, k);
      c := UpdateNeedsReset(env, db, next, ops, i + 1, ctx, k, b);
    }
  }

  /**
   Two updates of one row in a transaction that executes: both expected the version the
   row had before, and an operation between them put the row back to it.
   */
  lemma {:induction false} DoubleUpdateNeedsReset(env: Env, db: Db, tx: Tx, ctx: Context, k: Key, a: nat, b: nat) returns (c: nat)
    requires ValidTx(tx) && Execute(env, db, tx, ctx).Ok?
    requires a < b < |tx.ops| && UpdatesKey(tx.ops[a], k) && UpdatesKey(tx.ops[b], k)
    ensures a < c < b && Resets(tx.ops[c], k, tx.ops[a].op.expected)
  {
    c := DoubleUpdateFrom(env, db, Progress(db, [], []), tx.ops, 0, ctx, k, a, b);
  }

  /**
   A transaction whose creations have versions of at least 1 never commits two updates of
   one row, although Phase 1 alone lets it through.
   */
  lemma {:induction false} NoDoubleUpdate<T>(env: Env, db: Db, tx: Tx, ctx: Context, hook: Hook<T>, k: Key, a: nat, b: nat)
    requires ValidTx(tx) && AllPositive(tx.ops) && k.collection != LINKS_REV
    requires a < b < |tx.ops| && UpdatesKey(tx.ops[a], k) && UpdatesKey(tx.ops[b], k)
    ensures Commit(env, db, tx, ctx, hook).result.Err? && Commit(env, db, tx, ctx, hook).db == db
  {
    if Execute(env, db, tx, ctx).Ok? {
      var c := DoubleUpdateNeedsReset(env, db, tx, ctx, k, a, b);
    }
  }

  function Put(k: Key, version: nat): StagedOp
  {
    EntityOp(WriteOp(Entity(k, version, Null), 0, None, EntityCreate, PresentEntity))
  }

  function Touch(k: Key, expected: nat): StagedOp
  {
    EntityOp(WriteOp(Entity(k, expected, Null), expected, None, EntityUpdate, PresentEntity))
  }

  /** Phase 1 accepts two updates of one row; only the second swap stops them. */
  lemma {:induction false} PhaseOneAllowsDoubleUpdate(env: Env, k: Key)
    requires env.accepts(k.collection, Null)
    ensures var db := PutRow(EMPTY_DB, Entity(k, 1, Null));
            CheckFrom(env, db, [Touch(k, 1), Touch(k, 1)], 0) == None
  {
    var db := PutRow(EMPTY_DB, Entity(k, 1, Null));
    var ops := [Touch(k, 1), Touch(k, 1)];
    assert CheckFrom(env, db, ops, 2) == None;
    assert CheckFrom(env, db, ops, 1) == None;
  }

  /** With rows created at version 0 the guarantee is lost: this transaction updates one row twice. */
  lemma {:induction false} VersionZeroDoubleUpdates(env: Env, k: Key, ctx: Context)
    requires env.accepts(k.collection, Null)
    ensures Execute(env, EMPTY_DB, Tx("t", [Put(k, 0), Touch(k, 0), Put(k, 0), Touch(k, 0)], [], [], Snapshot), ctx).Ok?
  {
    var ops := [Put(k, 0), Touch(k, 0), Put(k, 0), Touch(k, 0)];
    assert CheckFrom(env, EMPTY_DB, ops, 4) == None;
    assert CheckFrom(env, EMPTY_DB, ops, 3) == None;
    assert CheckFrom(env, EMPTY_DB, ops, 2) == None;
    assert CheckFrom(env, EMPTY_DB, ops, 1) == None;
    var p0 := Progress(EMPTY_DB, [], []);
    var p1 := ApplyOp(p0, ops[0], ctx).value;
    var p2 := ApplyOp(p1, ops[1], ctx).value;
    var p3 := ApplyOp(p2, ops[2], ctx).value;
    var p4 := ApplyOp(p3, ops[3], ctx).value;
    assert ApplyOp(p1, ops[1], ctx).Ok? && ApplyOp(p3, ops[3], ctx).Ok?;
    assert ApplyFrom(p4, ops, 4, ctx).Ok?;
    assert ApplyFrom(p3, ops, 3, ctx).Ok?;
    assert ApplyFrom(p2, ops, 2, ctx).Ok?;
    assert ApplyFrom(p1, ops, 1, ctx).Ok?;
    assert ApplyFrom(p0, ops, 0, ctx).Ok?;
    assert CheckFrom(env, EMPTY_DB, ops, 0) == None;
  }

  /** The other reset: a link creation between two updates of its reverse-index row lets both through. */
  lemma {:induction false} ReverseRowDoubleUpdates(env: Env, l: Link, ctx: Context)
    requires !(l.ident.source.collection in {LINKS, LINKS_REV}) && !(l.ident.target.collection in {LINKS, LINKS_REV})
    requires env.accepts(LINKS_REV, Null)
    ensures var r := ReverseKey(l.ident);
            var db := PutRow(PutRow(PutRow(EMPTY_DB, Entity(l.ident.source, 1, Null)), Entity(l.ident.target, 1, Null)), Entity(r, 1, Null));
            Execute(env, db, Tx("t", [Touch(r, 1), LinkCreateOp(l), Touch(r, 1)], [], [], Snapshot), ctx).Ok?
  {
    var r, f := ReverseKey(l.ident), ForwardKey(l.ident);
    assert |LINKS| != |LINKS_REV|;
    assert f.collection == LINKS && r.collection == LINKS_REV;
    var db := PutRow(PutRow(PutRow(EMPTY_DB, Entity(l.ident.source, 1, Null)), Entity(l.ident.target, 1, Null)), Entity(r, 1, Null));
    assert l.ident.source in db.rows && l.ident.target in db.rows && f !in db.rows && r in db.rows && db.rows[r].version == 1;
    ResetExecutes(env, db, l, ctx, r);
  }

  lemma {:induction false} ResetExecutes(env: Env, db: Db, l: Link, ctx: Context, r: Key)
    requires r == ReverseKey(l.ident) && r in db.rows && db.rows[r].version == 1 && env.accepts(r.collection, Null)
    requires l.ident.source in db.rows && l.ident.target in db.rows && ForwardKey(l.ident) !in db.rows
    ensures Execute(env, db, Tx("t", [Touch(r, 1), LinkCreateOp(l), Touch(r, 1)], [], [], Snapshot), ctx).Ok?
  {
    var ops := [Touch(r, 1), LinkCreateOp(l), Touch(r, 1)];
    assert CheckFrom(env, db, ops, 3) == None;
    assert CheckFrom(env, db, ops, 2) == None;
    assert CheckFrom(env, db, ops, 1) == None;
    assert CheckFrom(env, db, ops, 0) == None;
    var p0 := Progress(db, [], []);
    var p1 := ApplyOp(p0, ops[0], ctx).value;
    var p2 := ApplyOp(p1, ops[1], ctx).value;
    assert r in p2.db.rows && p2.db.rows[r].version == 1;
    assert ApplyFrom(p2, ops, 2, ctx).Ok?;
    assert ApplyFrom(p1, ops, 1, ctx).Ok?;
    assert ApplyFrom(p0, ops, 0, ctx).Ok?;
  }
}
