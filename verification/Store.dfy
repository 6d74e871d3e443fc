/** The storage state: versioned rows, links, mutation intents and the audit log. */
module Store {
  import opened Prelude
  import opened Json
  import opened Audit

  const LINKS := "__axon_links__"
  const LINKS_REV := "__axon_links_rev__"

  datatype Entity = Entity(key: Key, version: nat, data: Json)

  /** What identifies a link: source, type, target. */
  datatype LinkIdent = LinkIdent(source: Key, linkType: string, target: Key)

  datatype Link = Link(ident: LinkIdent, metadata: Json)

  datatype ApprovalState = Unreviewed | Pending | Approved | Rejected | Expired | Committed

  datatype Scope = Scope(tenantId: string, databaseId: string)

  datatype Subject = Subject(
    userId: Option<string>,
    agentId: Option<string>,
    delegatedBy: Option<string>,
    tenantRole: Option<string>,
    credentialId: Option<string>,
    grantVersion: Option<nat>,
    attributes: map<string, Json>)

  datatype PreImage = PreImage(key: Key, version: nat)

  datatype Intent = Intent(
    id: string,
    scope: Scope,
    subject: Subject,
    schemaVersion: nat,
    policyVersion: nat,
    operationHash: string,
    preImages: seq<PreImage>,
    decision: Decision,
    state: ApprovalState,
    reasonRequired: bool,
    expiresAt: nat,
    summary: Json)

  datatype IntentKey = IntentKey(scope: Scope, id: string)

  datatype Db = Db(
    rows: map<Key, Entity>,
    links: map<LinkIdent, Link>,
    intents: map<IntentKey, Intent>,
    log: Log)

  const EMPTY_DB := Db(map[], map[], map[], Log([], 0))

  datatype Error =
    | ConflictingVersion(expected: nat, actual: nat, current: Option<Entity>)
    | NotFound(what: string)
    | AlreadyExists(what: string)
    | SchemaViolation
    | InvalidArgument(what: string)
    | InvalidOperation(what: string)
    | StorageFault      // a primitive failed for a reason outside this model
    | CommitFault       // commit_tx itself failed

  // ---------------------------------------------------------------------------
  // Link rows
  // ---------------------------------------------------------------------------

  function HexDigits(n: nat, width: nat): string
  {
    if width == 0 then [] else HexDigits(n / 16, width - 1) + ["0123456789abcdef"[n % 16]]
  }

  function Utf8(c: char): seq<nat>
  {
    var u := c as int;
    if u < 0x80 then [u]
    else if u < 0x800 then [0xC0 + u / 0x40, 0x80 + u % 0x40]
    else if u < 0x10000 then [0xE0 + u / 0x1000, 0x80 + u / 0x40 % 0x40, 0x80 + u % 0x40]
    else [0xF0 + u / 0x40000, 0x80 + u / 0x1000 % 0x40, 0x80 + u / 0x40 % 0x40, 0x80 + u % 0x40]
  }

  function Bytes(s: string): seq<nat>
  {
    if s == [] then [] else Utf8(s[0]) + Bytes(s[1..])
  }

  function HexBytes(bs: seq<nat>): string
  {
    if bs == [] then [] else HexDigits(bs[0], 2) + HexBytes(bs[1..])
  }

  /** One length-prefixed component of a link key. */
  function Component(value: string): string
  {
    var bs := Bytes(value);
    HexDigits(|bs|, 16) + ":" + HexBytes(bs) + "|"
  }

  function ForwardId(l: LinkIdent): string
  {
    "lk1f|" + Component(l.source.collection) + Component(l.source.id) + Component(l.linkType)
    + Component(l.target.collection) + Component(l.target.id)
  }

  function ReverseId(l: LinkIdent): string
  {
    "lk1r|" + Component(l.target.collection) + Component(l.target.id) + Component(l.source.collection)
    + Component(l.source.id) + Component(l.linkType)
  }

  function ForwardKey(l: LinkIdent): Key { Key(LINKS, ForwardId(l)) }

  function ReverseKey(l: LinkIdent): Key { Key(LINKS_REV, ReverseId(l)) }

  /** The serialized link, stored as the data of both rows. */
  function LinkData(l: Link): Json
  {
    Obj(map[
      "source_collection" := Str(l.ident.source.collection),
      "source_id" := Str(l.ident.source.id),
      "target_collection" := Str(l.ident.target.collection),
      "target_id" := Str(l.ident.target.id),
      "link_type" := Str(l.ident.linkType),
      "metadata" := l.metadata])
  }

  function ForwardRow(l: Link): Entity { Entity(ForwardKey(l.ident), 1, LinkData(l)) }

  function ReverseRow(l: Link): Entity { Entity(ReverseKey(l.ident), 1, LinkData(l)) }

  // ---------------------------------------------------------------------------
  // Primitive state changes
  // ---------------------------------------------------------------------------

  function Get(db: Db, k: Key): Option<Entity>
  {
    if k in db.rows then Some(db.rows[k]) else None
  }

  /** The stored version, 0 when the row is absent. */
  function VersionOf(db: Db, k: Key): nat
  {
    if k in db.rows then db.rows[k].version else 0
  }

  function PutRow(db: Db, e: Entity): Db
  {
    db.(rows := db.rows[e.key := e])
  }

  function DeleteRow(db: Db, k: Key): Db
  {
    db.(rows := db.rows - {k})
  }

  /** compare_and_swap: the row must exist at the expected version. */
  function Swap(db: Db, e: Entity, expected: nat): Result<Db, Error>
  {
    if e.key in db.rows && db.rows[e.key].version == expected
    then Ok(PutRow(db, e.(version := expected + 1)))
    else Err(ConflictingVersion(expected, VersionOf(db, e.key), Get(db, e.key)))
  }

  function PutLink(db: Db, l: Link): Db
  {
    var db1 := db.(links := db.links[l.ident := l]);
    PutRow(PutRow(db1, ForwardRow(l)), ReverseRow(l))
  }

  function RemoveLink(db: Db, l: LinkIdent): Db
  {
    var db1 := db.(links := db.links - {l});
    DeleteRow(DeleteRow(db1, ForwardKey(l)), ReverseKey(l))
  }

  /** update_mutation_intent_state: a compare-and-set on the approval state. */
  function SetIntentState(db: Db, k: IntentKey, expected: ApprovalState, next: ApprovalState): Result<Db, Error>
  {
    if k !in db.intents then Err(NotFound("mutation intent"))
    else if db.intents[k].state != expected then Err(InvalidOperation("intent state"))
    else Ok(db.(intents := db.intents[k := db.intents[k].(state := next)]))
  }

  function KeyOf(i: Intent): IntentKey { IntentKey(i.scope, i.id) }

  // ---------------------------------------------------------------------------
  // The adapter
  // ---------------------------------------------------------------------------

  /**
   The in-memory adapter.  Unless it is `reliable`, any primitive may fail with
   `StorageFault` (a unique index, an unregistered collection, an I/O error);
   a failing delete or link write may leave part of its work done, which the
   surrounding transaction then rolls back.
   */
  class Storage {
    var rows: map<Key, Entity>
    var links: map<LinkIdent, Link>
    var intents: map<IntentKey, Intent>
    var log: Log
    var snapshot: Option<Db>
    const reliable: bool
    const ownsAuditLog: bool
    const accepts: (string, Json) -> bool   // schema validation per collection

    constructor (reliable: bool, ownsAuditLog: bool, accepts: (string, Json) -> bool)
      ensures View() == EMPTY_DB && snapshot == None
      ensures this.reliable == reliable && this.ownsAuditLog == ownsAuditLog && this.accepts == accepts
    {
      this.reliable, this.ownsAuditLog, this.accepts := reliable, ownsAuditLog, accepts;
      rows, links, intents, log, snapshot := map[], map[], map[], Log([], 0), None;
    }

    function View(): Db
      reads this
    {
      Db(rows, links, intents, log)
    }

    method Restore(db: Db)
      modifies this
      ensures View() == db && snapshot == old(snapshot)
    {
      rows, links, intents, log := db.rows, db.links, db.intents, db.log;
    }

    method BeginTx() returns (r: Result<(), Error>)
      modifies this
      ensures View() == old(View())
      ensures r.Ok? ==> old(snapshot) == None && snapshot == Some(View())
      ensures r.Err? ==> snapshot == old(snapshot)
      ensures r.Err? ==> (!reliable && r.error == StorageFault) || (old(snapshot).Some? && r.error.InvalidOperation?)
    {
      var fault: bool := *;
      if !reliable && fault { return Err(StorageFault); }
      if snapshot.Some? { return Err(InvalidOperation("transaction already active")); }
      snapshot := Some(View());
      r := Ok(());
    }

    method CommitTx() returns (r: Result<(), Error>)
      modifies this
      ensures View() == old(View())
      ensures r.Ok? ==> old(snapshot).Some? && snapshot == None
      ensures r.Err? ==> snapshot == old(snapshot) && r.error == CommitFault && !(reliable && snapshot.Some?)
    {
      var fault: bool := *;
      if (!reliable && fault) || snapshot.None? { return Err(CommitFault); }
      snapshot := None;
      r := Ok(());
    }

    method AbortTx()
      modifies this
      ensures snapshot == None
      ensures View() == if old(snapshot).Some? then old(snapshot).value else old(View())
    {
      if snapshot.Some? {
        var s := snapshot.value;
        rows, links, intents, log, snapshot := s.rows, s.links, s.intents, s.log, None;
      }
    }

    method Fetch(k: Key) returns (r: Result<Option<Entity>, Error>)
      ensures r == Ok(Get(View(), k)) || (!reliable && r == Err(StorageFault))
    {
      var fault: bool := *;
      r := if !reliable && fault then Err(StorageFault) else Ok(Get(View(), k));
    }

    method Put(e: Entity) returns (r: Result<(), Error>)
      modifies this
      ensures snapshot == old(snapshot)
      ensures r.Ok? ==> View() == PutRow(old(View()), e)
      ensures r.Err? ==> !reliable && r.error == StorageFault && View() == old(View())
    {
      var fault: bool := *;
      if !reliable && fault { return Err(StorageFault); }
      rows := rows[e.key := e];
      r := Ok(());
    }

    method Delete(k: Key) returns (r: Result<(), Error>)
      modifies this
      ensures snapshot == old(snapshot)
      ensures r.Ok? ==> View() == DeleteRow(old(View()), k)
      ensures r.Err? ==> !reliable && r.error == StorageFault && View() in {old(View()), DeleteRow(old(View()), k)}
    {
      var fault, indexFault: bool := *, *;
      if !reliable && fault { return Err(StorageFault); }
      rows := rows - {k};
      if !reliable && indexFault { return Err(StorageFault); }
      r := Ok(());
    }

    method CompareAndSwap(e: Entity, expected: nat) returns (r: Result<Entity, Error>)
      modifies this
      ensures snapshot == old(snapshot)
      ensures r.Ok? ==> Swap(old(View()), e, expected) == Ok(View()) && r.value == e.(version := expected + 1)
      ensures r.Err? ==> View() == old(View())
      ensures r.Err? ==> (!reliable && r.error == StorageFault) || Swap(old(View()), e, expected) == Err(r.error)
    {
      var fault: bool := *;
      if !reliable && fault { return Err(StorageFault); }
      var current := Get(View(), e.key);
      if current.None? { return Err(ConflictingVersion(expected, 0, None)); }
      if current.value.version != expected {
        return Err(ConflictingVersion(expected, current.value.version, current));
      }
      var updated := e.(version := expected + 1);
      rows := rows[e.key := updated];
      r := Ok(updated);
    }

    /** The link store first, then the two rows; a failing row write leaves what came before it. */
    method InsertLink(l: Link) returns (r: Result<(), Error>)
      modifies this
      ensures snapshot == old(snapshot)
      ensures r.Ok? ==> View() == PutLink(old(View()), l)
      ensures r.Err? ==> !reliable && r.error == StorageFault
      ensures r.Err? ==> var linked := old(View()).(links := old(links)[l.ident := l]);
                         View() in {linked, PutRow(linked, ForwardRow(l))}
    {
      links := links[l.ident := l];
      r := Put(ForwardRow(l));
      if r.Err? { return; }
      r := Put(ReverseRow(l));
    }

    method DeleteLink(l: LinkIdent) returns (r: Result<(), Error>)
      modifies this
      ensures snapshot == old(snapshot)
      ensures r.Ok? ==> View() == RemoveLink(old(View()), l)
      ensures r.Err? ==> !reliable && r.error == StorageFault
      ensures r.Err? ==> var unlinked := old(View()).(links := old(links) - {l});
                         View() in {unlinked, DeleteRow(unlinked, ForwardKey(l)), RemoveLink(old(View()), l)}
    {
      links := links - {l};
      r := Delete(ForwardKey(l));
      if r.Err? { return; }
      r := Delete(ReverseKey(l));
    }

    method AppendAudit(entry: AuditEntry, clock: nat -> nat) returns (r: Result<(), Error>)
      modifies this
      ensures snapshot == old(snapshot)
      ensures r.Ok? ==> View() == old(View()).(log := Append(old(log), entry, clock))
      ensures r.Err? ==> !reliable && r.error == StorageFault && View() == old(View())
    {
      var fault: bool := *;
      if !reliable && fault { return Err(StorageFault); }
      log := Append(log, entry, clock);
      r := Ok(());
    }

    method CreateIntent(i: Intent) returns (r: Result<(), Error>)
      modifies this
      ensures snapshot == old(snapshot)
      ensures r.Ok? ==> KeyOf(i) !in old(intents) && View() == old(View()).(intents := old(intents)[KeyOf(i) := i])
      ensures r.Err? ==> View() == old(View())
      ensures r.Err? ==> (!reliable && r.error == StorageFault) ||
                         (KeyOf(i) in old(intents) && r.error == AlreadyExists("mutation intent"))
    {
      var fault: bool := *;
      if !reliable && fault { return Err(StorageFault); }
      if KeyOf(i) in intents { return Err(AlreadyExists("mutation intent")); }
      intents := intents[KeyOf(i) := i];
      r := Ok(());
    }

    method FetchIntent(k: IntentKey) returns (r: Result<Option<Intent>, Error>)
      ensures (!reliable && r == Err(StorageFault)) || r == Ok(if k in intents then Some(intents[k]) else None)
    {
      var fault: bool := *;
      r := if !reliable && fault then Err(StorageFault) else Ok(if k in intents then Some(intents[k]) else None);
    }

    method UpdateIntentState(k: IntentKey, expected: ApprovalState, next: ApprovalState)
      returns (r: Result<Intent, Error>)
      modifies this
      ensures snapshot == old(snapshot)
      ensures r.Ok? ==> SetIntentState(old(View()), k, expected, next) == Ok(View()) &&
                        k in intents && r.value == intents[k]
      ensures r.Err? ==> View() == old(View())
      ensures r.Err? ==> (!reliable && r.error == StorageFault) || SetIntentState(old(View()), k, expected, next) == Err(r.error)
    {
      var fault: bool := *;
      if !reliable && fault { return Err(StorageFault); }
      if k !in intents { return Err(NotFound("mutation intent")); }
      if intents[k].state != expected { return Err(InvalidOperation("intent state")); }
      intents := intents[k := intents[k].(state := next)];
      r := Ok(intents[k]);
    }
  }
}
