/** What committing a staged transaction means, as functions of the storage state. */
module TxSpec {
  import opened Prelude
  import opened Json
  import opened Audit
  import opened Store

  const MAX_OPS := 100
  const MAX_READS := 100

  datatype Isolation = Snapshot | Serializable | SerializableStrict

  predicate IsSerializable(i: Isolation) { i != Snapshot }

  /** An observed version; 0 records that the row was absent. */
  datatype ReadRef = ReadRef(key: Key, observed: nat)

  datatype ScanRef = ScanRef(collection: string, observed: nat)

  datatype WriteScope = PresentEntity | Patch(patch: Json)

  datatype WriteOp = WriteOp(
    entity: Entity,
    expected: nat,
    dataBefore: Option<Json>,
    mutation: MutationType,
    scope: WriteScope)

  datatype StagedOp = EntityOp(op: WriteOp) | LinkCreateOp(link: Link) | LinkDeleteOp(link: Link)

  datatype Tx = Tx(id: string, ops: seq<StagedOp>, readSet: seq<ReadRef>, scanSet: seq<ScanRef>, isolation: Isolation)

  /** Everything a commit reads from its surroundings. */
  datatype Env = Env(
    accepts: (string, Json) -> bool,         // schema validation of data for a collection
    signature: (string, bool) -> nat,        // scan signature now; the flag asks for the content form
    clock: nat -> nat)

  /** What every audit entry of one commit shares. */
  datatype Context = Context(
    txId: string,
    actor: Option<string>,
    attribution: Option<Attribution>,
    lineage: Option<Lineage>)

  // ---------------------------------------------------------------------------
  // Phase 1: version checks against the state before any write
  // ---------------------------------------------------------------------------

  predicate VersionOk(mutation: MutationType, current: nat, expected: nat)
  {
    match mutation
    case EntityCreate => current == 0
    case EntityUpdate => current == expected
    case EntityDelete => current == expected
    case _ => true
  }

  function CheckOp(env: Env, db: Db, op: StagedOp): Option<Error>
  {
    match op
    case EntityOp(w) =>
      var current := VersionOf(db, w.entity.key);
      if !VersionOk(w.mutation, current, w.expected) then
        Some(ConflictingVersion(w.expected, current, Get(db, w.entity.key)))
      else if w.mutation in {EntityCreate, EntityUpdate} && !env.accepts(w.entity.key.collection, w.entity.data) then
        Some(SchemaViolation)
      else None
    case LinkCreateOp(l) =>
      if l.ident.source !in db.rows then Some(NotFound("source entity"))
      else if l.ident.target !in db.rows then Some(NotFound("target entity"))
      else if ForwardKey(l.ident) in db.rows then Some(AlreadyExists("link"))
      else None
    case LinkDeleteOp(l) =>
      if ForwardKey(l.ident) !in db.rows then Some(NotFound("link")) else None
  }

  /** The first failing check from position `i` on. */
  function CheckFrom(env: Env, db: Db, ops: seq<StagedOp>, i: nat): Option<Error>
    requires i <= |ops|
    decreases |ops| - i
  {
    if i == |ops| then None
    else match CheckOp(env, db, ops[i])
      case Some(e) => Some(e)
      case None => CheckFrom(env, db, ops, i + 1)
  }

  // ---------------------------------------------------------------------------
  // Phase 1b: read-set validation
  // ---------------------------------------------------------------------------

  function CheckReads(db: Db, readSet: seq<ReadRef>, i: nat): Option<Error>
    requires i <= |readSet|
    decreases |readSet| - i
  {
    if i == |readSet| then None
    else if VersionOf(db, readSet[i].key) != readSet[i].observed then
      Some(ConflictingVersion(readSet[i].observed, VersionOf(db, readSet[i].key), Get(db, readSet[i].key)))
    else CheckReads(db, readSet, i + 1)
  }

  function CheckScans(env: Env, strict: bool, scans: seq<ScanRef>, i: nat): Option<Error>
    requires i <= |scans|
    decreases |scans| - i
  {
    if i == |scans| then None
    else
      var now := env.signature(scans[i].collection, strict);
      if now != scans[i].observed then Some(ConflictingVersion(scans[i].observed, now, None))
      else CheckScans(env, strict, scans, i + 1)
  }

  function Validate(env: Env, db: Db, tx: Tx): Option<Error>
  {
    match CheckFrom(env, db, tx.ops, 0)
    case Some(e) => Some(e)
    case None =>
      if !IsSerializable(tx.isolation) then None
      else match CheckReads(db, tx.readSet, 0)
        case Some(e) => Some(e)
        case None => CheckScans(env, tx.isolation == SerializableStrict, tx.scanSet, 0)
  }

  // ---------------------------------------------------------------------------
  // Phase 2: applying the writes one after another
  // ---------------------------------------------------------------------------

  /** State, audit entries and written rows so far. */
  datatype Progress = Progress(db: Db, entries: seq<AuditEntry>, written: seq<Entity>)

  function Entry(ctx: Context, key: Key, version: nat, mutation: MutationType,
                 before: Option<Json>, after: Option<Json>): AuditEntry
  {
    NewEntry(key, version, mutation, before, after,
             Some(if ctx.actor.Some? then ctx.actor.value else "anonymous"))
      .(transactionId := Some(ctx.txId), attribution := ctx.attribution, lineage := ctx.lineage)
  }

  function Wrote(p: Progress, db: Db, entry: AuditEntry, row: Entity): Progress
  {
    Progress(db, p.entries + [entry], p.written + [row])
  }

  function ApplyOp(p: Progress, op: StagedOp, ctx: Context): Result<Progress, Error>
  {
    match op
    case EntityOp(w) => (
      var e := w.entity;
      match w.mutation
      case EntityCreate =>
        Ok(Wrote(p, PutRow(p.db, e), Entry(ctx, e.key, e.version, EntityCreate, None, Some(e.data)), e))
      case EntityUpdate => (
        match Swap(p.db, e, w.expected)
        case Ok(db) =>
          Ok(Wrote(p, db, Entry(ctx, e.key, w.expected + 1, EntityUpdate, w.dataBefore, Some(e.data)),
                   e.(version := w.expected + 1)))
        case Err(x) => Err(x))
      case EntityDelete =>
        Ok(Wrote(p, DeleteRow(p.db, e.key), Entry(ctx, e.key, e.version, EntityDelete, w.dataBefore, None), e))
      case _ => Ok(p))
    case LinkCreateOp(l) =>
      var row := ForwardRow(l);
      Ok(Wrote(p, PutLink(p.db, l), Entry(ctx, row.key, row.version, LinkCreate, None, Some(row.data)), row))
    case LinkDeleteOp(l) =>
      var k := ForwardKey(l.ident);
      if k !in p.db.rows then Err(NotFound("link"))
      else
        var row := p.db.rows[k];
        Ok(Wrote(p, RemoveLink(p.db, l.ident),
                 Entry(ctx, row.key, row.version, LinkDelete, Some(row.data), None), row))
  }

  function ApplyFrom(p: Progress, ops: seq<StagedOp>, i: nat, ctx: Context): Result<Progress, Error>
    requires i <= |ops|
    decreases |ops| - i
  {
    if i == |ops| then Ok(p)
    else match ApplyOp(p, ops[i], ctx)
      case Ok(next) => ApplyFrom(next, ops, i + 1, ctx)
      case Err(e) => Err(e)
  }

  function Execute(env: Env, db: Db, tx: Tx, ctx: Context): Result<Progress, Error>
  {
    match Validate(env, db, tx)
    case Some(e) => Err(e)
    case None => ApplyFrom(Progress(db, [], []), tx.ops, 0, ctx)
  }

  // ---------------------------------------------------------------------------
  // The whole commit
  // ---------------------------------------------------------------------------

  /** A hook runs on the open transaction just before commit and may fail. */
  type Hook<T> = Db -> (Db, Result<T, Error>)

  datatype Outcome<T> = Outcome(db: Db, result: Result<(seq<Entity>, T), Error>)

  function Logged(env: Env, p: Progress): Db
  {
    p.db.(log := AppendAll(p.db.log, p.entries, env.clock))
  }

  function Commit<T>(env: Env, db: Db, tx: Tx, ctx: Context, hook: Hook<T>): Outcome<T>
  {
    match Execute(env, db, tx, ctx)
    case Err(e) => Outcome(db, Err(e))
    case Ok(p) =>
      var (after, r) := hook(Logged(env, p));
      match r
      case Err(e) => Outcome(db, Err(e))
      case Ok(v) => Outcome(after, Ok((p.written, v)))
  }

  function NoHook(db: Db): (Db, Result<(), Error>) { (db, Ok(())) }

  /** The staging methods produce entity operations of these three kinds only. */
  predicate Stageable(op: StagedOp)
  {
    op.EntityOp? ==> op.op.mutation in {EntityCreate, EntityUpdate, EntityDelete}
  }

  predicate ValidTx(tx: Tx)
  {
    && |tx.ops| <= MAX_OPS && |tx.readSet| <= MAX_READS && |tx.scanSet| <= MAX_READS
    && (forall i :: 0 <= i < |tx.ops| ==> Stageable(tx.ops[i]))
    && (!IsSerializable(tx.isolation) ==> tx.readSet == [] && tx.scanSet == [])
  }
}
