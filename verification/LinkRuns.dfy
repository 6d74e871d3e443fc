/** The link store and the link rows agree over every run, so the log rebuilds the links. */
module LinkRuns {
  import opened Prelude
  import opened Json
  import opened Audit
  import opened Store
  import opened TxSpec
  import opened TxEffects
  import opened IntentSpec
  import opened IntentTheorems
  import opened SystemRuns
  import opened LinkKeys

  predicate LinkCollection(k: Key)
  {
    k.collection == LINKS || k.collection == LINKS_REV
  }

  /** Entity operations stay out of the two collections the link store keeps. */
  predicate UserOp(op: StagedOp)
  {
    op.EntityOp? ==> !LinkCollection(op.op.entity.key)
  }

  predicate UserOps(ops: seq<StagedOp>)
  {
    forall i :: 0 <= i < |ops| ==> UserOp(ops[i])
  }

  predicate UserRun(calls: seq<Call>)
  {
    ValidRun(calls) && forall i :: 0 <= i < |calls| && TxOf(calls[i]).Some? ==> UserOps(TxOf(calls[i]).value.ops)
  }

  /** How links are written as rows. */
  datatype Naming = Naming(forward: LinkIdent -> Key, reverse: LinkIdent -> Key,
                           forwardRow: Link -> Entity, reverseRow: Link -> Entity)

  /** Each row of the two link collections belongs to one link. */
  ghost predicate Names(n: Naming)
  {
    && (forall l, m :: n.forward(l) == n.forward(m) ==> l == m)
    && (forall l, m :: n.reverse(l) == n.reverse(m) ==> l == m)
    && (forall l :: n.forward(l).collection == LINKS) && (forall l :: n.reverse(l).collection == LINKS_REV)
  }

  const NAMING := Naming(ForwardKey, ReverseKey, ForwardRow, ReverseRow)

  lemma {:induction false} StorageNames()
    ensures Names(NAMING)
  {
    forall l, m | NAMING.forward(l) == NAMING.forward(m) ensures l == m { ForwardKeyInjective(l, m); }
    forall l, m | NAMING.reverse(l) == NAMING.reverse(m) ensures l == m { ReverseKeyInjective(l, m); }
  }

  lemma {:induction false} CollectionsDiffer()
    ensures LINKS != LINKS_REV
  {
    assert |LINKS| != |LINKS_REV|;
  }

  /** A link of the store is in both of its rows. */
  predicate LinkStored(n: Naming, rows: map<Key, Entity>, links: map<LinkIdent, Link>, l: LinkIdent)
  {
    && l in links && links[l].ident == l
    && n.forward(l) in rows && rows[n.forward(l)] == n.forwardRow(links[l])
    && n.reverse(l) in rows && rows[n.reverse(l)] == n.reverseRow(links[l])
  }

  ghost predicate RowNamed(n: Naming, links: map<LinkIdent, Link>, k: Key)
  {
    exists l :: l in links && (k == n.forward(l) || k == n.reverse(l))
  }

  /** The link store and the rows of the two link collections hold the same links. */
  ghost predicate Agree(n: Naming, rows: map<Key, Entity>, links: map<LinkIdent, Link>)
  {
    && (forall l :: l in links ==> LinkStored(n, rows, links, l))
    && (forall k :: k in rows && LinkCollection(k) ==> RowNamed(n, links, k))
  }

  ghost predicate LinksAgree(db: Db)
  {
    Agree(NAMING, db.rows, db.links)
  }

  lemma {:induction false} ForwardRowNamesLink(n: Naming, rows: map<Key, Entity>, links: map<LinkIdent, Link>, l: LinkIdent)
    requires Names(n) && Agree(n, rows, links)
    ensures l in links <==> n.forward(l) in rows
    ensures l in links ==> rows[n.forward(l)] == n.forwardRow(links[l])
  {
    CollectionsDiffer();
    if l in links {
      assert LinkStored(n, rows, links, l);
    } else if n.forward(l) in rows {
      assert RowNamed(n, links, n.forward(l));
      var m :| m in links && (n.forward(l) == n.forward(m) || n.forward(l) == n.reverse(m));
    }
  }

  /** A link is stored exactly when its forward row is, with the link's data in it. */
  lemma {:induction false} LinkIffRow(db: Db, l: LinkIdent)
    requires LinksAgree(db)
    ensures l in db.links <==> ForwardKey(l) in db.rows
    ensures l in db.links ==> db.links[l].ident == l && db.rows[ForwardKey(l)] == ForwardRow(db.links[l])
  {
    StorageNames();
    ForwardRowNamesLink(NAMING, db.rows, db.links, l);
    assert l in db.links ==> LinkStored(NAMING, db.rows, db.links, l);
  }

  // ---- Each operation keeps the agreement ----

  lemma {:induction false} SameLinkRows(n: Naming, rows: map<Key, Entity>, after: map<Key, Entity>, links: map<LinkIdent, Link>)
    requires Names(n) && Agree(n, rows, links)
    requires forall k :: LinkCollection(k) ==> (k in after <==> k in rows)
    requires forall k :: LinkCollection(k) && k in rows && k in after ==> after[k] == rows[k]
    ensures Agree(n, after, links)
  {
    forall l | l in links ensures LinkStored(n, after, links, l) {
      assert LinkStored(n, rows, links, l);
      assert LinkCollection(n.forward(l)) && LinkCollection(n.reverse(l));
    }
  }

  lemma {:induction false} OtherRows(n: Naming, l: LinkIdent, m: LinkIdent)
    requires Names(n) && l != m
    ensures n.forward(m) != n.forward(l) && n.forward(m) != n.reverse(l)
    ensures n.reverse(m) != n.forward(l) && n.reverse(m) != n.reverse(l)
  {
    CollectionsDiffer();
    assert n.forward(m).collection == LINKS && n.reverse(l).collection == LINKS_REV;
    assert n.forward(l).collection == LINKS && n.reverse(m).collection == LINKS_REV;
  }

  lemma {:induction false} PutAgrees(n: Naming, rows: map<Key, Entity>, links: map<LinkIdent, Link>, link: Link)
    requires Names(n) && Agree(n, rows, links)
    ensures Agree(n, rows[n.forward(link.ident) := n.forwardRow(link)][n.reverse(link.ident) := n.reverseRow(link)],
                  links[link.ident := link])
  {
    var after, more := rows[n.forward(link.ident) := n.forwardRow(link)][n.reverse(link.ident) := n.reverseRow(link)],
                       links[link.ident := link];
    forall m | m in more ensures LinkStored(n, after, more, m) {
      if m == link.ident {
        CollectionsDiffer();
        assert n.forward(m).collection == LINKS && n.reverse(m).collection == LINKS_REV;
      } else {
        assert LinkStored(n, rows, links, m);
        OtherRows(n, link.ident, m);
      }
    }
    forall k | k in after && LinkCollection(k) ensures RowNamed(n, more, k) {
      assert link.ident in more;
      if k != n.forward(link.ident) && k != n.reverse(link.ident) {
        assert RowNamed(n, links, k);
        var l :| l in links && (k == n.forward(l) || k == n.reverse(l));
        assert l in more;
      }
    }
  }

  lemma {:induction false} RemoveKeepsOther(n: Naming, rows: map<Key, Entity>, links: map<LinkIdent, Link>, l: LinkIdent, m: LinkIdent)
    requires Names(n) && m != l && LinkStored(n, rows, links, m)
    ensures LinkStored(n, rows - {n.forward(l)} - {n.reverse(l)}, links - {l}, m)
  {
    OtherRows(n, l, m);
  }

  lemma {:induction false} RemoveAgrees(n: Naming, rows: map<Key, Entity>, links: map<LinkIdent, Link>, l: LinkIdent)
    requires Names(n) && Agree(n, rows, links)
    ensures Agree(n, rows - {n.forward(l)} - {n.reverse(l)}, links - {l})
  {
    var after, fewer := rows - {n.forward(l)} - {n.reverse(l)}, links - {l};
    forall m | m in fewer ensures LinkStored(n, after, fewer, m) {
      assert LinkStored(n, rows, links, m);
      RemoveKeepsOther(n, rows, links, l, m);
    }
    forall k | k in after && LinkCollection(k) ensures RowNamed(n, fewer, k) {
      assert RowNamed(n, links, k);
      var m :| m in links && (k == n.forward(m) || k == n.reverse(m));
      assert m in fewer;
    }
  }

  lemma {:induction false} EntityRowAgrees(rows: map<Key, Entity>, links: map<LinkIdent, Link>, k: Key, e: Entity)
    requires Agree(NAMING, rows, links) && !LinkCollection(k)
    ensures Agree(NAMING, rows[k := e], links) && Agree(NAMING, rows - {k}, links)
  {
    StorageNames();
    SameLinkRows(NAMING, rows, rows[k := e], links);
    SameLinkRows(NAMING, rows, rows - {k}, links);
  }

  lemma {:induction false} EntityOpAgrees(p: Progress, op: StagedOp, ctx: Context)
    requires op.EntityOp? && UserOp(op) && LinksAgree(p.db) && ApplyOp(p, op, ctx).Ok?
    ensures LinksAgree(ApplyOp(p, op, ctx).value.db)
  {
    var w := op.op;
    EntityRowAgrees(p.db.rows, p.db.links, w.entity.key,
                    if w.mutation == EntityUpdate then w.entity.(version := w.expected + 1) else w.entity);
  }

  lemma {:induction false} PutLinkAgrees(db: Db, link: Link)
    requires LinksAgree(db)
    ensures LinksAgree(PutLink(db, link))
  {
    StorageNames();
    PutAgrees(NAMING, db.rows, db.links, link);
  }

  lemma {:induction false} RemoveLinkAgrees(db: Db, l: LinkIdent)
    requires LinksAgree(db)
    ensures LinksAgree(RemoveLink(db, l))
  {
    StorageNames();
    RemoveAgrees(NAMING, db.rows, db.links, l);
  }

  lemma {:induction false} ApplyOpAgrees(p: Progress, op: StagedOp, ctx: Context)
    requires UserOp(op) && LinksAgree(p.db) && ApplyOp(p, op, ctx).Ok?
    ensures LinksAgree(ApplyOp(p, op, ctx).value.db)
  {
    match op
    case EntityOp(_) => EntityOpAgrees(p, op, ctx);
    case LinkCreateOp(l) => PutLinkAgrees(p.db, l);
    case LinkDeleteOp(l) => RemoveLinkAgrees(p.db, l.ident);
  }

  lemma {:induction false} ApplyAgrees(p: Progress, ops: seq<StagedOp>, i: nat, ctx: Context)
    requires i <= |ops| && UserOps(ops) && LinksAgree(p.db) && ApplyFrom(p, ops, i, ctx).Ok?
    ensures LinksAgree(ApplyFrom(p, ops, i, ctx).value.db)
    decreases |ops| - i
  {
    if i < |ops| {
      ApplyOpAgrees(p, ops[i], ctx);
      ApplyAgrees(ApplyOp(p, ops[i], ctx).value, ops, i + 1, ctx);
    }
  }

  lemma {:induction false} SameStore(db: Db, after: Db)
    requires LinksAgree(db) && after.rows == db.rows && after.links == db.links
    ensures LinksAgree(after)
  {
  }

  lemma {:induction false} ExecuteAgrees(env: Env, db: Db, tx: Tx, ctx: Context, after: Db)
    requires UserOps(tx.ops) && LinksAgree(db) && Execute(env, db, tx, ctx).Ok?
    requires after.rows == Execute(env, db, tx, ctx).value.db.rows && after.links == Execute(env, db, tx, ctx).value.db.links
    ensures LinksAgree(after)
  {
    ApplyAgrees(Progress(db, [], []), tx.ops, 0, ctx);
    SameStore(Execute(env, db, tx, ctx).value.db, after);
  }

  // ---- Each call keeps the agreement ----

  lemma {:induction false} SweepKeepsStore(db: Db, scope: Scope, due: seq<Intent>, i: nat, now: nat, clock: nat -> nat)
    requires i <= |due|
    ensures var after := SweepFrom(db, scope, due, i, now, clock).db; after.rows == db.rows && after.links == db.links
    decreases |due| - i
  {
    if i < |due| {
      var step := Expire(db, IntentKey(scope, due[i].id), now);
      if step.result.Ok? {
        SweepKeepsStore(Record(step.db, TransitionEntry(due[i], step.result.value, IntentExpire, "system", None), clock),
                        scope, due, i + 1, now, clock);
      }
    }
  }

  predicate SameRowsAndLinks(before: Db, after: Db)
  {
    after.rows == before.rows && after.links == before.links
  }

  lemma {:induction false} ReviewKeepsStore(db: Db, k: IntentKey, review: Review, now: nat, op: Operation, to: ApprovalState)
    ensures SameRowsAndLinks(db, ReviewTo(db, k, review, now, op, to).db)
  {
  }

  lemma {:induction false} PlainKeepsStore(db: Db, c: Call)
    requires c.ApproveCall? || c.RejectCall? || c.ExpireCall? || c.MarkCall?
    ensures SameRowsAndLinks(db, Next(db, c))
  {
    match c
    case ApproveCall(k, review, now) => ReviewKeepsStore(db, k, review, now, DoApprove, Approved);
    case RejectCall(k, review, now) => ReviewKeepsStore(db, k, review, now, DoReject, Rejected);
    case _ =>
  }

  lemma {:induction false} AuditedKeepsStore(db: Db, c: Call)
    requires c.ApproveAuditedCall? || c.RejectAuditedCall? || c.ExpireAuditedCall?
    ensures SameRowsAndLinks(db, Next(db, c))
  {
    match c
    case ApproveAuditedCall(k, review, now, _) => PlainKeepsStore(db, ApproveCall(k, review, now));
    case RejectAuditedCall(k, review, now, _) => PlainKeepsStore(db, RejectCall(k, review, now));
    case ExpireAuditedCall(k, now, _) => PlainKeepsStore(db, ExpireCall(k, now));
  }

  lemma {:induction false} IntentCallKeepsStore(db: Db, c: Call)
    requires TxOf(c).None?
    ensures SameRowsAndLinks(db, Next(db, c))
  {
    match c
    case PreviewCall(_, _) =>
    case SweepCall(scope, due, now, clock) => SweepKeepsStore(db, scope, due, 0, now, clock);
    case _ =>
      if c.ApproveCall? || c.RejectCall? || c.ExpireCall? || c.MarkCall? {
        PlainKeepsStore(db, c);
      } else {
        AuditedKeepsStore(db, c);
      }
  }

  lemma {:induction false} TxCallAgrees(env: Env, db: Db, tx: Tx, ctx: Context)
    requires UserOps(tx.ops) && LinksAgree(db)
    ensures LinksAgree(Commit(env, db, tx, ctx, NoHook).db)
  {
    if Execute(env, db, tx, ctx).Ok? { ExecuteAgrees(env, db, tx, ctx, Commit(env, db, tx, ctx, NoHook).db); }
  }

  lemma {:induction false} CommitCallAgrees(env: Env, sha: string -> string, db: Db, req: CommitRequest)
    requires Sound(db) && ValidTx(req.tx) && UserOps(req.tx.ops) && LinksAgree(db)
    ensures LinksAgree(CommitIntent(env, sha, db, req).db)
  {
    CommitIntentAtomic(env, sha, db, req);
    var out := CommitIntent(env, sha, db, req);
    if out.result.Ok? {
      var ctx := Context(req.tx.id, req.actor, req.attribution,
                         Some(LineageOf(db.intents[IntentKey(req.scope, req.verified.value)], None)));
      ExecuteAgrees(env, db, req.tx, ctx, out.db);
    } else {
      SameStore(db, out.db);
    }
  }

  lemma {:induction false} CallAgrees(db: Db, c: Call)
    requires Sound(db) && ValidCall(c) && LinksAgree(db) && (TxOf(c).Some? ==> UserOps(TxOf(c).value.ops))
    ensures LinksAgree(Next(db, c))
  {
    match c
    case TxCall(env, tx, actor, attribution) => TxCallAgrees(env, db, tx, Context(tx.id, actor, attribution, None));
    case CommitCall(env, sha, req) => CommitCallAgrees(env, sha, db, req);
    case _ =>
      IntentCallKeepsStore(db, c);
      SameStore(db, Next(db, c));
  }

  /** Over every run whose entity operations stay out of the link collections, links and link rows agree. */
  lemma {:induction false} RunLinksAgree(calls: seq<Call>)
    requires UserRun(calls)
    ensures LinksAgree(Run(calls))
    decreases |calls|
  {
    if calls != [] {
      var init := calls[..|calls| - 1];
      RunLinksAgree(init);
      RunSound(init);
      CallAgrees(Run(init), calls[|calls| - 1]);
    }
  }

  lemma {:induction false} MissingRowDisagrees(n: Naming, rows: map<Key, Entity>, links: map<LinkIdent, Link>, l: LinkIdent)
    requires l in links && n.forward(l) !in rows
    ensures !Agree(n, rows, links)
  {
    assert !LinkStored(n, rows, links, l);
  }

  function DeleteEntity(k: Key, version: nat): StagedOp
  {
    EntityOp(WriteOp(Entity(k, version, Null), version, None, EntityDelete, PresentEntity))
  }

  lemma {:induction false} EntityDeleteCommits(env: Env, db: Db, k: Key, id: string, ctx: Context)
    requires k in db.rows
    ensures var tx := Tx(id, [DeleteEntity(k, db.rows[k].version)], [], [], Snapshot);
            var out := Commit(env, db, tx, ctx, NoHook);
            ValidTx(tx) && out.result.Ok? && out.db.rows == db.rows - {k} && out.db.links == db.links
  {
    var op := DeleteEntity(k, db.rows[k].version);
    var p := Progress(db, [], []);
    assert CheckFrom(env, db, [op], 1) == None;
    assert ApplyFrom(p, [op], 0, ctx) == ApplyFrom(ApplyOp(p, op, ctx).value, [op], 1, ctx);
  }

  /**
   The condition is needed: deleting the forward row of a link as an entity commits and
   leaves the link in the link store.
   */
  lemma {:induction false} EntityDeleteBreaksAgreement(env: Env, db: Db, l: LinkIdent, id: string, ctx: Context)
    requires LinksAgree(db) && l in db.links
    ensures ForwardKey(l) in db.rows
    ensures var tx := Tx(id, [DeleteEntity(ForwardKey(l), db.rows[ForwardKey(l)].version)], [], [], Snapshot);
            var out := Commit(env, db, tx, ctx, NoHook);
            ValidTx(tx) && out.result.Ok? && l in out.db.links && !LinksAgree(out.db)
  {
    LinkIffRow(db, l);
    EntityDeleteCommits(env, db, ForwardKey(l), id, ctx);
    MissingRowDisagrees(NAMING, db.rows - {ForwardKey(l)}, db.links, l);
  }

  // ---- The links the log rebuilds ----

  function TextOf(m: map<string, Json>, name: string): Option<string>
  {
    if name in m && m[name].Str? then Some(m[name].s) else None
  }

  /** A link read from the data of a row. */
  function ReadLink(data: Json): Option<Link>
  {
    if !data.Obj? then None
    else
      var m := data.members;
      match (TextOf(m, "source_collection"), TextOf(m, "source_id"), TextOf(m, "link_type"),
             TextOf(m, "target_collection"), TextOf(m, "target_id"))
      case (Some(sc), Some(si), Some(t), Some(tc), Some(ti)) =>
        if "metadata" in m then Some(Link(LinkIdent(Key(sc, si), t, Key(tc, ti)), m["metadata"])) else None
      case _ => None
  }

  lemma {:induction false} LinkDataReads(link: Link)
    ensures ReadLink(LinkData(link)) == Some(link)
  {
  }

  /** The links held in the forward rows. */
  ghost function LinksIn(rows: map<Key, Entity>): set<Link>
  {
    set k | k in rows && k.collection == LINKS && ReadLink(rows[k].data).Some? :: ReadLink(rows[k].data).value
  }

  ghost predicate SameForwardRows(rows: map<Key, Entity>, stored: map<Key, Entity>)
  {
    forall k: Key :: k.collection == LINKS ==> (k in rows <==> k in stored) && (k in rows && k in stored ==> rows[k] == stored[k])
  }

  lemma {:induction false} LinkInRows(db: Db, rows: map<Key, Entity>, l: LinkIdent)
    requires LinksAgree(db) && SameForwardRows(rows, db.rows) && l in db.links
    ensures db.links[l] in LinksIn(rows)
  {
    LinkIffRow(db, l);
    LinkDataReads(db.links[l]);
    var k := ForwardKey(l);
    assert k in rows && rows[k] == ForwardRow(db.links[l]) && k.collection == LINKS;
  }

  lemma {:induction false} RowHoldsLink(db: Db, rows: map<Key, Entity>, k: Key)
    requires LinksAgree(db) && SameForwardRows(rows, db.rows) && k in rows && k.collection == LINKS
    ensures ReadLink(rows[k].data).Some? && ReadLink(rows[k].data).value in db.links.Values
  {
    assert RowNamed(NAMING, db.links, k);
    var l :| l in db.links && (k == NAMING.forward(l) || k == NAMING.reverse(l));
    CollectionsDiffer();
    StorageNames();
    assert NAMING.reverse(l).collection == LINKS_REV;
    LinkIffRow(db, l);
    LinkDataReads(db.links[l]);
  }

  lemma {:induction false} AgreeingRowsHoldLinks(db: Db, rows: map<Key, Entity>)
    requires LinksAgree(db) && SameForwardRows(rows, db.rows)
    ensures LinksIn(rows) == db.links.Values
  {
    forall l | l in db.links ensures db.links[l] in LinksIn(rows) { LinkInRows(db, rows, l); }
    forall k | k in rows && k.collection == LINKS ensures ReadLink(rows[k].data).Some? && ReadLink(rows[k].data).value in db.links.Values {
      RowHoldsLink(db, rows, k);
    }
  }

  lemma {:induction false} RebuiltForwardRows(calls: seq<Call>)
    requires ValidRun(calls)
    ensures SameForwardRows(Rebuilt(Run(calls).log), Run(calls).rows)
  {
    CollectionsDiffer();
    forall k: Key | k.collection == LINKS
      ensures k in Rebuilt(Run(calls).log) <==> k in Run(calls).rows
      ensures k in Run(calls).rows ==> Rebuilt(Run(calls).log)[k] == Run(calls).rows[k]
    {
      AuditReconstruction(calls, k);
    }
  }

  /** After every such run, the forward rows folded from the log hold exactly the links of the link store. */
  lemma {:induction false} LogRebuildsLinks(calls: seq<Call>)
    requires UserRun(calls)
    ensures LinksIn(Rebuilt(Run(calls).log)) == Run(calls).links.Values
    ensures forall l :: l in Run(calls).links ==> Run(calls).links[l].ident == l
  {
    var db := Run(calls);
    RunLinksAgree(calls);
    RebuiltForwardRows(calls);
    forall l | l in db.links ensures db.links[l].ident == l { assert LinkStored(NAMING, db.rows, db.links, l); }
    AgreeingRowsHoldLinks(db, Rebuilt(db.log));
  }
}
