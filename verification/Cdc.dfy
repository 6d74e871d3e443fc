/** Change data capture: envelopes, resumable replay and the compacted message stream. */
module Cdc {
  import opened Prelude
  import opened Json
  import opened CanonicalTheorems
  import opened Audit
  import opened AuditLog
  import opened Store
  import opened TxEffects
  import opened Versions
  import opened SystemRuns
  import opened LinkRuns

  datatype CdcContext = CdcContext(instanceName: string, tenant: string, db: string, schema: string, axonVersion: string)

  const DEFAULT_CONTEXT := CdcContext("axon", "default", "default", "default", "0.4.2")

  datatype CdcOp = CreateChange | UpdateChange | DeleteChange | SnapshotRead

  datatype Source = Source(version: string, connector: string, name: string, tsMs: nat, tenant: string, db: string,
                           schema: string, collection: string, entityId: string, auditId: nat, transactionId: Option<string>)

  datatype Envelope = Envelope(source: Source, op: CdcOp, tsMs: nat, before: Option<Json>, after: Option<Json>)

  function OpOf(mutation: MutationType): Option<CdcOp>
  {
    match mutation
    case EntityCreate => Some(CreateChange)
    case LinkCreate => Some(CreateChange)
    case EntityUpdate => Some(UpdateChange)
    case EntityRevert => Some(UpdateChange)
    case EntityDelete => Some(DeleteChange)
    case LinkDelete => Some(DeleteChange)
    case _ => None
  }

  /** The envelope of a row change; `now` stands in for an entry without a timestamp. */
  function EnvelopeOf(ctx: CdcContext, now: nat, e: AuditEntry): Option<Envelope>
  {
    match OpOf(e.mutation)
    case None => None
    case Some(op) =>
      var tsMs := if e.timestampNs > 0 then e.timestampNs / 1_000_000 else now;
      Some(Envelope(
        Source(ctx.axonVersion, "axon", ctx.instanceName, tsMs, ctx.tenant, ctx.db, ctx.schema,
               e.key.collection, e.key.id, e.id, e.transactionId),
        op, tsMs, e.dataBefore, e.dataAfter))
  }

  /** The envelopes of the entries that have one, in order. */
  function Stream(ctx: CdcContext, now: nat, entries: seq<AuditEntry>): seq<Envelope>
  {
    if entries == [] then []
    else
      var init := Stream(ctx, now, entries[..|entries| - 1]);
      match EnvelopeOf(ctx, now, entries[|entries| - 1]) case Some(v) => init + [v] case None => init
  }

  // ---- Replay ----

  function ReplayQuery(collection: Option<string>, after: Option<nat>, limit: nat): Query
  {
    ALL.(collection := collection, after := after, limit := Some(limit))
  }

  /** An entry between two cursors, in the collection asked for if one is. */
  predicate Between(collection: Option<string>, after: Option<nat>, next: Option<nat>, e: AuditEntry)
  {
    && e.id > CursorOf(after) && (next.Some? ==> e.id <= next.value)
    && (collection.Some? ==> e.key.collection == collection.value)
  }

  ghost predicate EnvelopeIn(entries: seq<AuditEntry>, collection: Option<string>, after: Option<nat>, next: Option<nat>, now: nat, v: Envelope)
  {
    exists e :: e in entries && Between(collection, after, next, e) && EnvelopeOf(DEFAULT_CONTEXT, now, e) == Some(v)
  }

  /**
   What a replay delivers: the envelopes of exactly the entries between the cursor it was
   given and the one it returns, at most `limit`, in id order. It returns a cursor exactly
   when entries remain past it, and nothing at all for a limit of zero.
   */
  ghost predicate Delivers(entries: seq<AuditEntry>, collection: Option<string>, after: Option<nat>, limit: nat, now: nat,
                           envelopes: seq<Envelope>, next: Option<nat>)
  {
    && |envelopes| <= limit
    && (forall i, j :: 0 <= i < j < |envelopes| ==> envelopes[i].source.auditId < envelopes[j].source.auditId)
    && (limit == 0 ==> next == None)
    && (limit > 0 ==> forall v :: v in envelopes <==> EnvelopeIn(entries, collection, after, next, now, v))
    && (next.Some? ==> exists e :: e in entries && Between(collection, next, None, e))
  }

  method Replay(log: MemoryAuditLog, after: Option<nat>, collection: Option<string>, limit: nat, now: nat)
    returns (envelopes: seq<Envelope>, next: Option<nat>)
    requires ValidLog(log.View())
    ensures Delivers(log.entries, collection, after, limit, now, envelopes, next)
  {
    var page := log.QueryPaginated(ReplayQuery(collection, after, limit));
    envelopes, next := Stream(DEFAULT_CONTEXT, now, page.entries), page.next;
    ReplayDelivers(log.inDatabase, log.View(), collection, after, limit, now);
  }

  /** Cursors by sink and collection; the empty name stands for all collections. */
  type CursorStore = map<(string, string), nat>

  function StoredCursor(cursors: CursorStore, sink: string, collection: Option<string>): Option<nat>
  {
    var name := if collection.Some? then collection.value else "";
    if (sink, name) in cursors then Some(cursors[(sink, name)]) else None
  }

  method ReplayFromCursor(log: MemoryAuditLog, cursors: CursorStore, sink: string, collection: Option<string>, limit: nat, now: nat)
    returns (envelopes: seq<Envelope>, next: Option<nat>)
    requires ValidLog(log.View())
    ensures Delivers(log.entries, collection, StoredCursor(cursors, sink, collection), limit, now, envelopes, next)
  {
    envelopes, next := Replay(log, StoredCursor(cursors, sink, collection), collection, limit, now);
  }

  lemma {:induction false} StreamMembers(ctx: CdcContext, now: nat, entries: seq<AuditEntry>, v: Envelope)
    ensures v in Stream(ctx, now, entries) <==> exists e :: e in entries && EnvelopeOf(ctx, now, e) == Some(v)
    ensures |Stream(ctx, now, entries)| <= |entries|
    decreases |entries|
  {
    if entries != [] {
      StreamMembers(ctx, now, entries[..|entries| - 1], v);
      assert entries == entries[..|entries| - 1] + [entries[|entries| - 1]];
    }
  }

  lemma {:induction false} ReplayMatches(inDatabase: DatabaseTest, collection: Option<string>, after: Option<nat>, limit: nat, e: AuditEntry)
    ensures Matches(inDatabase, ReplayQuery(collection, after, limit), e) <==> (collection.Some? ==> e.key.collection == collection.value)
  {
    var q := ReplayQuery(collection, after, limit);
    assert collection.Some? ==> collection.value in EffectiveCollections(q);
    assert collection.None? ==> EffectiveCollections(q) == [];
  }

  /** The entries of a page lie between its two cursors, and nothing that matches there is missing. */
  lemma {:induction false} PageBetween(found: seq<AuditEntry>, limit: nat, e: AuditEntry)
    requires AscendingIds(found) && limit > 0
    ensures var page := Cut(found, limit);
            e in page.entries <==> e in found && (page.next.Some? ==> e.id <= page.next.value)
  {
    if |found| > limit && e in found {
      var k :| 0 <= k < |found| && found[k] == e;
      assert k < limit ==> found[..limit][k] == e;
      assert e in found[..limit] ==> exists j :: 0 <= j < limit && found[j] == e;
    }
  }

  lemma {:induction false} CutAscends(found: seq<AuditEntry>, limit: nat)
    requires AscendingIds(found)
    ensures AscendingIds(Cut(found, limit).entries) && |Cut(found, limit).entries| <= limit
  {
  }

  lemma {:induction false} ReplayedEntry(inDatabase: DatabaseTest, log: Log, collection: Option<string>, after: Option<nat>, limit: nat, e: AuditEntry)
    requires ValidLog(log) && limit > 0
    ensures var page := PageOf(inDatabase, ReplayQuery(collection, after, limit), log.entries);
            e in page.entries <==> e in log.entries && Between(collection, after, page.next, e)
  {
    var q := ReplayQuery(collection, after, limit);
    ValidLogAscends(log);
    PageIsPrefix(inDatabase, q, CursorOf(after), log.entries);
    FoundFrom(inDatabase, q, CursorOf(after), log.entries);
    ReplayMatches(inDatabase, collection, after, limit, e);
    PageBetween(Found(inDatabase, q, CursorOf(after), log.entries), limit, e);
  }

  lemma {:induction false} ReplayOrder(inDatabase: DatabaseTest, log: Log, collection: Option<string>, after: Option<nat>, limit: nat, now: nat)
    requires ValidLog(log)
    ensures var page := PageOf(inDatabase, ReplayQuery(collection, after, limit), log.entries);
            var stream := Stream(DEFAULT_CONTEXT, now, page.entries);
            && |stream| <= limit && (limit == 0 ==> page.next == None)
            && forall i, j :: 0 <= i < j < |stream| ==> stream[i].source.auditId < stream[j].source.auditId
  {
    var q := ReplayQuery(collection, after, limit);
    ValidLogAscends(log);
    PageIsPrefix(inDatabase, q, CursorOf(after), log.entries);
    FoundFrom(inDatabase, q, CursorOf(after), log.entries);
    CutAscends(Found(inDatabase, q, CursorOf(after), log.entries), limit);
    var entries := PageOf(inDatabase, q, log.entries).entries;
    var stream := Stream(DEFAULT_CONTEXT, now, entries);
    if stream != [] { StreamMembers(DEFAULT_CONTEXT, now, entries, stream[0]); }
    forall i, j | 0 <= i < j < |stream| ensures stream[i].source.auditId < stream[j].source.auditId {
      AuditIdsAscend(DEFAULT_CONTEXT, now, entries, i, j);
    }
  }

  lemma {:induction false} MoreRemains(inDatabase: DatabaseTest, log: Log, collection: Option<string>, after: Option<nat>, limit: nat)
    requires ValidLog(log) && PageOf(inDatabase, ReplayQuery(collection, after, limit), log.entries).next.Some?
    ensures var next := PageOf(inDatabase, ReplayQuery(collection, after, limit), log.entries).next;
            exists e :: e in log.entries && Between(collection, next, None, e)
  {
    var q := ReplayQuery(collection, after, limit);
    ValidLogAscends(log);
    PageIsPrefix(inDatabase, q, CursorOf(after), log.entries);
    FoundFrom(inDatabase, q, CursorOf(after), log.entries);
    var found := Found(inDatabase, q, CursorOf(after), log.entries);
    var e := found[limit];
    assert e in found;
    ReplayMatches(inDatabase, collection, after, limit, e);
    assert Between(collection, PageOf(inDatabase, q, log.entries).next, None, e);
  }

  lemma {:induction false} ReplayDelivers(inDatabase: DatabaseTest, log: Log, collection: Option<string>, after: Option<nat>, limit: nat, now: nat)
    requires ValidLog(log)
    ensures var page := PageOf(inDatabase, ReplayQuery(collection, after, limit), log.entries);
            Delivers(log.entries, collection, after, limit, now, Stream(DEFAULT_CONTEXT, now, page.entries), page.next)
  {
    var page := PageOf(inDatabase, ReplayQuery(collection, after, limit), log.entries);
    ReplayOrder(inDatabase, log, collection, after, limit, now);
    if page.next.Some? { MoreRemains(inDatabase, log, collection, after, limit); }
    if limit > 0 {
      forall v ensures v in Stream(DEFAULT_CONTEXT, now, page.entries) <==> EnvelopeIn(log.entries, collection, after, page.next, now, v) {
        StreamMembers(DEFAULT_CONTEXT, now, page.entries, v);
        forall e ensures e in page.entries <==> e in log.entries && Between(collection, after, page.next, e) {
          ReplayedEntry(inDatabase, log, collection, after, limit, e);
        }
      }
    }
  }

  lemma {:induction false} StreamConcat(ctx: CdcContext, now: nat, a: seq<AuditEntry>, b: seq<AuditEntry>)
    ensures Stream(ctx, now, a + b) == Stream(ctx, now, a) + Stream(ctx, now, b)
    decreases |b|
  {
    if b == [] {
      assert a + b == a;
    } else {
      assert (a + b)[..|a + b| - 1] == a + b[..|b| - 1];
      StreamConcat(ctx, now, a, b[..|b| - 1]);
    }
  }

  /** The envelopes gathered by following the page cursors over a growing log. */
  ghost function Replayed(inDatabase: DatabaseTest, ctx: CdcContext, now: nat, q: Query, cursor: nat, logs: seq<Log>): seq<Envelope>
    decreases |logs|
  {
    if logs == [] then []
    else
      var page := PageFrom(inDatabase, q, cursor, logs[0].entries);
      Stream(ctx, now, page.entries) +
      if page.next.Some? then Replayed(inDatabase, ctx, now, q, page.next.value, logs[1..]) else []
  }

  lemma {:induction false} ReplayedIsStream(inDatabase: DatabaseTest, ctx: CdcContext, now: nat, q: Query, cursor: nat, logs: seq<Log>)
    ensures Replayed(inDatabase, ctx, now, q, cursor, logs) == Stream(ctx, now, Collected(inDatabase, q, cursor, logs))
    decreases |logs|
  {
    if logs != [] {
      var page := PageFrom(inDatabase, q, cursor, logs[0].entries);
      if page.next.Some? {
        ReplayedIsStream(inDatabase, ctx, now, q, page.next.value, logs[1..]);
        StreamConcat(ctx, now, page.entries, Collected(inDatabase, q, page.next.value, logs[1..]));
      } else {
        assert page.entries + [] == page.entries;
      }
    }
  }

  /** Resuming from page cursors, also past pages without envelopes, delivers every envelope once and in order. */
  lemma {:induction false} ReplayExact(inDatabase: DatabaseTest, ctx: CdcContext, now: nat, q: Query, cursor: nat, logs: seq<Log>)
    requires LimitOf(q) > 0 && Grows(logs) && Walk(inDatabase, q, cursor, logs)
    ensures Replayed(inDatabase, ctx, now, q, cursor, logs) ==
            Stream(ctx, now, Found(inDatabase, q, cursor, logs[|logs| - 1].entries))
  {
    ReplayedIsStream(inDatabase, ctx, now, q, cursor, logs);
    PaginationExact(inDatabase, q, cursor, logs);
  }

  /** The entry behind an envelope of the stream. */
  lemma {:induction false} EntryBehind(ctx: CdcContext, now: nat, entries: seq<AuditEntry>, k: nat) returns (j: nat)
    requires k < |Stream(ctx, now, entries)|
    ensures j < |entries| && EnvelopeOf(ctx, now, entries[j]) == Some(Stream(ctx, now, entries)[k])
    ensures |Stream(ctx, now, entries[..j])| == k
    decreases |entries|
  {
    var init := entries[..|entries| - 1];
    if k < |Stream(ctx, now, init)| {
      j := EntryBehind(ctx, now, init, k);
      assert entries[..j] == init[..j];
    } else {
      j := |entries| - 1;
    }
  }

  lemma {:induction false} StreamSplit(ctx: CdcContext, now: nat, entries: seq<AuditEntry>, j: nat)
    requires j < |entries| && EnvelopeOf(ctx, now, entries[j]).Some?
    ensures |Stream(ctx, now, entries[..j])| < |Stream(ctx, now, entries)|
    ensures Stream(ctx, now, entries[j + 1..]) == Stream(ctx, now, entries)[|Stream(ctx, now, entries[..j])| + 1..]
  {
    assert entries == entries[..j + 1] + entries[j + 1..];
    StreamConcat(ctx, now, entries[..j + 1], entries[j + 1..]);
    assert entries[..j + 1][..j] == entries[..j];
  }

  /** Resuming from the audit id of any delivered envelope gives exactly the envelopes after it. */
  lemma {:induction false} ResumeFromEnvelope(inDatabase: DatabaseTest, ctx: CdcContext, now: nat, q: Query, cursor: nat, log: Log, k: nat)
    requires ValidLog(log) && k < |Stream(ctx, now, Found(inDatabase, q, cursor, log.entries))|
    ensures var stream := Stream(ctx, now, Found(inDatabase, q, cursor, log.entries));
            Stream(ctx, now, Found(inDatabase, q, stream[k].source.auditId, log.entries)) == stream[k + 1..]
  {
    var found := Found(inDatabase, q, cursor, log.entries);
    var j := EntryBehind(ctx, now, found, k);
    ValidLogAscends(log);
    FoundPast(inDatabase, q, cursor, log.entries, j + 1);
    StreamSplit(ctx, now, found, j);
  }

  /** Audit ids strictly ascend along a stream: they identify its envelopes. */
  lemma {:induction false} AuditIdsAscend(ctx: CdcContext, now: nat, entries: seq<AuditEntry>, k: nat, l: nat)
    requires AscendingIds(entries) && k < l < |Stream(ctx, now, entries)|
    ensures Stream(ctx, now, entries)[k].source.auditId < Stream(ctx, now, entries)[l].source.auditId
  {
    var i := EntryBehind(ctx, now, entries, k);
    var j := EntryBehind(ctx, now, entries, l);
    if j <= i {
      assert entries[..i] == entries[..j] + entries[j..i];
      StreamConcat(ctx, now, entries[..j], entries[j..i]);
    }
  }

  // ---- The message sink ----

  datatype Payload = Change(envelope: Envelope) | Tombstone

  datatype Message = Message(topic: string, key: string, payload: Payload)

  function EventKey(s: Source): Json
  {
    Obj(map["tenant" := Str(s.tenant), "db" := Str(s.db), "schema" := Str(s.schema),
            "collection" := Str(s.collection), "id" := Str(s.entityId)])
  }

  function EventKeyText(s: Source): string
  {
    CanonicalText(EventKey(s))
  }

  predicate SameRow(s: Source, t: Source)
  {
    s.tenant == t.tenant && s.db == t.db && s.schema == t.schema && s.collection == t.collection && s.entityId == t.entityId
  }

  lemma {:induction false} EventKeyFields(s: Source, t: Source)
    ensures ValidJson(EventKey(s)) && (EventKey(s) == EventKey(t) <==> SameRow(s, t))
  {
    var a, b := EventKey(s).members, EventKey(t).members;
    if a == b {
      assert a["tenant"] == Str(s.tenant) && a["db"] == Str(s.db) && a["schema"] == Str(s.schema);
      assert b["tenant"] == Str(t.tenant) && b["db"] == Str(t.db) && b["schema"] == Str(t.schema);
      assert a["collection"] == Str(s.collection) && b["collection"] == Str(t.collection);
      assert a["id"] == Str(s.entityId) && b["id"] == Str(t.entityId);
    }
  }

  /** Two sources share an event key exactly when they name the same row of the same schema. */
  lemma {:induction false} EventKeyIdentifies(s: Source, t: Source)
    ensures EventKeyText(s) == EventKeyText(t) <==> SameRow(s, t)
  {
    EventKeyFields(s, t);
    EventKeyFields(t, s);
    CanonicalTextInjective(EventKey(s), EventKey(t));
  }

  /** A change, followed by a tombstone under the same key when it is a delete. */
  function MessagesUnder(topic: string, key: string, v: Envelope): seq<Message>
  {
    [Message(topic, key, Change(v))] + if v.op == DeleteChange then [Message(topic, key, Tombstone)] else []
  }

  function MessagesFor(topicOf: Source -> string, v: Envelope): seq<Message>
  {
    MessagesUnder(topicOf(v.source), EventKeyText(v.source), v)
  }

  class KafkaCdcSink {
    const enabled: bool
    const topicOf: Source -> string
    var sent: seq<Message>

    constructor (enabled: bool, topicOf: Source -> string)
      ensures this.enabled == enabled && this.topicOf == topicOf && sent == []
    {
      this.enabled, this.topicOf, sent := enabled, topicOf, [];
    }

    method EmitTombstone(source: Source)
      modifies this
      ensures sent == old(sent) + if enabled then [Message(topicOf(source), EventKeyText(source), Tombstone)] else []
    {
      if !enabled { return; }
      sent := sent + [Message(topicOf(source), EventKeyText(source), Tombstone)];
    }

    method Emit(envelope: Envelope)
      modifies this
      ensures sent == old(sent) + if enabled then MessagesFor(topicOf, envelope) else []
    {
      if !enabled { return; }
      sent := sent + [Message(topicOf(envelope.source), EventKeyText(envelope.source), Change(envelope))];
      if envelope.op == DeleteChange { EmitTombstone(envelope.source); }
    }
  }

  /** The messages of a whole stream. */
  function Published(topicOf: Source -> string, stream: seq<Envelope>): seq<Message>
  {
    if stream == [] then []
    else Published(topicOf, stream[..|stream| - 1]) + MessagesFor(topicOf, stream[|stream| - 1])
  }

  /** Emitting a stream envelope by envelope on an enabled sink sends exactly its messages. */
  lemma {:induction false} EmitsPublish(topicOf: Source -> string, stream: seq<Envelope>, sent: seq<seq<Message>>)
    requires |sent| == |stream| + 1
    requires forall i :: 0 <= i < |stream| ==> Emitted(topicOf, sent[i], stream[i], sent[i + 1])
    ensures sent[|stream|] == sent[0] + Published(topicOf, stream)
    decreases |stream|
  {
    if stream != [] {
      var n := |stream| - 1;
      EmitsPublish(topicOf, stream[..n], sent[..n + 1]);
      assert Emitted(topicOf, sent[n], stream[n], sent[n + 1]);
    }
  }

  /** What `Emit` does to an enabled sink. */
  predicate Emitted(topicOf: Source -> string, before: seq<Message>, v: Envelope, after: seq<Message>)
  {
    after == before + MessagesFor(topicOf, v)
  }

  /** Log compaction: the last payload per key. */
  function Compacted(messages: seq<Message>): map<string, Payload>
  {
    if messages == [] then map[]
    else
      var last := messages[|messages| - 1];
      Compacted(messages[..|messages| - 1])[last.key := last.payload]
  }

  function LastPayload(v: Envelope): Payload
  {
    if v.op == DeleteChange then Tombstone else Change(v)
  }

  lemma {:induction false} CompactPair(before: seq<Message>, change: Message, tombstone: Message)
    requires change.key == tombstone.key
    ensures Compacted(before + [change, tombstone]) == Compacted(before)[tombstone.key := tombstone.payload]
  {
    CompactSnoc(before, change);
    CompactSnoc(before + [change], tombstone);
    assert (before + [change]) + [tombstone] == before + [change, tombstone];
  }

  lemma {:induction false} CompactUnder(before: seq<Message>, topic: string, key: string, v: Envelope)
    ensures Compacted(before + MessagesUnder(topic, key, v)) == Compacted(before)[key := LastPayload(v)]
  {
    var change, tombstone := Message(topic, key, Change(v)), Message(topic, key, Tombstone);
    if v.op == DeleteChange {
      assert MessagesUnder(topic, key, v) == [change, tombstone];
      CompactPair(before, change, tombstone);
    } else {
      assert MessagesUnder(topic, key, v) == [change];
      CompactSnoc(before, change);
    }
  }

  lemma {:induction false} CompactNext(topicOf: Source -> string, stream: seq<Envelope>, v: Envelope)
    ensures Compacted(Published(topicOf, stream + [v])) ==
            Compacted(Published(topicOf, stream))[EventKeyText(v.source) := LastPayload(v)]
  {
    assert (stream + [v])[..|stream|] == stream;
    CompactUnder(Published(topicOf, stream), topicOf(v.source), EventKeyText(v.source), v);
  }

  lemma {:induction false} CompactSnoc(messages: seq<Message>, m: Message)
    ensures Compacted(messages + [m]) == Compacted(messages)[m.key := m.payload]
  {
    assert (messages + [m])[..|messages|] == messages;
  }

  /** The source fields that make up the key of a row. */
  function RowSource(ctx: CdcContext, k: Key): Source
  {
    Source("", "", "", 0, ctx.tenant, ctx.db, ctx.schema, k.collection, k.id, 0, None)
  }

  function RowKey(ctx: CdcContext, k: Key): string
  {
    EventKeyText(RowSource(ctx, k))
  }

  /** The compacted payload of a row says what the rows hold for it. */
  ghost predicate Agrees(compacted: map<string, Payload>, key: string, rows: map<Key, Entity>, k: Key)
  {
    if k in rows then key in compacted && compacted[key].Change? && compacted[key].envelope.after == Some(rows[k].data)
    else key in compacted ==> compacted[key] == Tombstone
  }

  /** One more message keeps the agreement, whichever row it is about. */
  lemma {:induction false} MessageAgrees(compacted: map<string, Payload>, key: string, rows: map<Key, Entity>, k: Key,
                                         e: AuditEntry, v: Envelope, text: string)
    requires Agrees(compacted, key, rows, k) && Bumps(rows, e) && (text == key <==> e.key == k)
    requires OpOf(e.mutation) == Some(v.op) && v.after == e.dataAfter
    ensures Agrees(compacted[text := LastPayload(v)], key, FoldEntry(rows, e), k)
  {
  }

  lemma {:induction false} NextAgrees(topicOf: Source -> string, ctx: CdcContext, stream: seq<Envelope>,
                                      rows: map<Key, Entity>, e: AuditEntry, v: Envelope, k: Key)
    requires Agrees(Compacted(Published(topicOf, stream)), RowKey(ctx, k), rows, k) && Bumps(rows, e)
    requires OpOf(e.mutation) == Some(v.op) && v.after == e.dataAfter
    requires SameRow(v.source, RowSource(ctx, e.key))
    ensures Agrees(Compacted(Published(topicOf, stream + [v])), RowKey(ctx, k), FoldEntry(rows, e), k)
  {
    CompactNext(topicOf, stream, v);
    EventKeyIdentifies(v.source, RowSource(ctx, k));
    assert SameRow(v.source, RowSource(ctx, k)) <==> e.key == k;
    MessageAgrees(Compacted(Published(topicOf, stream)), RowKey(ctx, k), rows, k, e, v, EventKeyText(v.source));
  }

  lemma {:induction false} OtherEntriesFoldNothing(ctx: CdcContext, now: nat, rows: map<Key, Entity>, e: AuditEntry)
    requires EnvelopeOf(ctx, now, e).None?
    ensures FoldEntry(rows, e) == rows
  {
  }

  lemma {:induction false} StreamNext(ctx: CdcContext, now: nat, entries: seq<AuditEntry>)
    requires entries != []
    ensures var init, v := Stream(ctx, now, entries[..|entries| - 1]), EnvelopeOf(ctx, now, entries[|entries| - 1]);
            Stream(ctx, now, entries) == if v.Some? then init + [v.value] else init
  {
  }

  /** Folding a stream of changes by compaction follows folding the log. */
  lemma {:induction false} CompactionFollowsFold(topicOf: Source -> string, ctx: CdcContext, now: nat, entries: seq<AuditEntry>, k: Key)
    requires Chained(map[], entries)
    ensures Agrees(Compacted(Published(topicOf, Stream(ctx, now, entries))), RowKey(ctx, k), Fold(map[], entries), k)
    decreases |entries|
  {
    if entries != [] {
      var init, last := entries[..|entries| - 1], entries[|entries| - 1];
      CompactionFollowsFold(topicOf, ctx, now, init, k);
      StreamNext(ctx, now, entries);
      match EnvelopeOf(ctx, now, last)
      case None => OtherEntriesFoldNothing(ctx, now, Fold(map[], init), last);
      case Some(v) => NextAgrees(topicOf, ctx, Stream(ctx, now, init), Fold(map[], init), last, v, k);
    }
  }

  /**
   After any run, the last message per event key of the published log, with tombstones
   as removal, is exactly the stored entities and forward links.
   */
  lemma {:induction false} CompactionRebuilds(calls: seq<Call>, topicOf: Source -> string, ctx: CdcContext, now: nat, k: Key)
    requires ValidRun(calls) && k.collection != LINKS_REV
    ensures var db := Run(calls);
            Agrees(Compacted(Published(topicOf, Stream(ctx, now, db.log.entries))), RowKey(ctx, k), db.rows, k)
  {
    RunSound(calls);
    AuditReconstruction(calls, k);
    CompactionFollowsFold(topicOf, ctx, now, Run(calls).log.entries, k);
  }

  // ---- The links of a compacted stream ----

  predicate FromContext(ctx: CdcContext, s: Source)
  {
    s.tenant == ctx.tenant && s.db == ctx.db && s.schema == ctx.schema
  }

  /** Every kept change is filed under the event key of its own source. */
  ghost predicate FiledUnderSource(ctx: CdcContext, compacted: map<string, Payload>)
  {
    forall t :: t in compacted && compacted[t].Change? ==>
      t == EventKeyText(compacted[t].envelope.source) && FromContext(ctx, compacted[t].envelope.source)
  }

  lemma {:induction false} NextFiled(ctx: CdcContext, compacted: map<string, Payload>, text: string, v: Envelope)
    requires FiledUnderSource(ctx, compacted) && text == EventKeyText(v.source) && FromContext(ctx, v.source)
    ensures FiledUnderSource(ctx, compacted[text := LastPayload(v)])
  {
  }

  lemma {:induction false} StreamFiled(topicOf: Source -> string, ctx: CdcContext, now: nat, entries: seq<AuditEntry>)
    ensures FiledUnderSource(ctx, Compacted(Published(topicOf, Stream(ctx, now, entries))))
    decreases |entries|
  {
    if entries != [] {
      var init, last := entries[..|entries| - 1], entries[|entries| - 1];
      StreamFiled(topicOf, ctx, now, init);
      StreamNext(ctx, now, entries);
      match EnvelopeOf(ctx, now, last)
      case None =>
      case Some(v) =>
        CompactNext(topicOf, Stream(ctx, now, init), v);
        NextFiled(ctx, Compacted(Published(topicOf, Stream(ctx, now, init))), EventKeyText(v.source), v);
    }
  }

  /** A kept change about a forward link row. */
  predicate LinkChange(p: Payload)
  {
    p.Change? && p.envelope.source.collection == LINKS && p.envelope.after.Some? && ReadLink(p.envelope.after.value).Some?
  }

  /** The links a consumer holds after compaction. */
  ghost function LinksKept(compacted: map<string, Payload>): set<Link>
  {
    set t | t in compacted && LinkChange(compacted[t]) :: ReadLink(compacted[t].envelope.after.value).value
  }

  lemma {:induction false} KeptFor(ctx: CdcContext, compacted: map<string, Payload>, k: Key, rows: map<Key, Entity>)
    requires FiledUnderSource(ctx, compacted) && k in rows && k.collection == LINKS && ReadLink(rows[k].data).Some?
    requires Agrees(compacted, RowKey(ctx, k), rows, k)
    ensures ReadLink(rows[k].data).value in LinksKept(compacted)
  {
    var t := RowKey(ctx, k);
    EventKeyIdentifies(compacted[t].envelope.source, RowSource(ctx, k));
    assert LinkChange(compacted[t]);
  }

  lemma {:induction false} KeptFrom(ctx: CdcContext, compacted: map<string, Payload>, t: string, rows: map<Key, Entity>) returns (k: Key)
    requires FiledUnderSource(ctx, compacted) && t in compacted && LinkChange(compacted[t])
    requires var s := compacted[t].envelope.source;
             Agrees(compacted, RowKey(ctx, Key(s.collection, s.entityId)), rows, Key(s.collection, s.entityId))
    ensures k in rows && k.collection == LINKS && compacted[t].envelope.after == Some(rows[k].data)
  {
    var s := compacted[t].envelope.source;
    k := Key(s.collection, s.entityId);
    EventKeyIdentifies(s, RowSource(ctx, k));
  }

  lemma {:induction false} LinkIsKept(calls: seq<Call>, topicOf: Source -> string, ctx: CdcContext, now: nat, l: LinkIdent)
    requires UserRun(calls) && l in Run(calls).links
    ensures Run(calls).links[l] in LinksKept(Compacted(Published(topicOf, Stream(ctx, now, Run(calls).log.entries))))
  {
    var db := Run(calls);
    RunLinksAgree(calls);
    CollectionsDiffer();
    StreamFiled(topicOf, ctx, now, db.log.entries);
    LinkIffRow(db, l);
    LinkDataReads(db.links[l]);
    CompactionRebuilds(calls, topicOf, ctx, now, ForwardKey(l));
    KeptFor(ctx, Compacted(Published(topicOf, Stream(ctx, now, db.log.entries))), ForwardKey(l), db.rows);
  }

  lemma {:induction false} KeptIsLink(calls: seq<Call>, topicOf: Source -> string, ctx: CdcContext, now: nat, compacted: map<string, Payload>, t: string)
    requires UserRun(calls) && compacted == Compacted(Published(topicOf, Stream(ctx, now, Run(calls).log.entries)))
    requires t in compacted && LinkChange(compacted[t])
    ensures ReadLink(compacted[t].envelope.after.value).value in Run(calls).links.Values
  {
    var db := Run(calls);
    RunLinksAgree(calls);
    CollectionsDiffer();
    StreamFiled(topicOf, ctx, now, db.log.entries);
    var s := compacted[t].envelope.source;
    CompactionRebuilds(calls, topicOf, ctx, now, Key(s.collection, s.entityId));
    var k := KeptFrom(ctx, compacted, t, db.rows);
    RowHoldsLink(db, db.rows, k);
  }

  /**
   After every run whose entity operations stay out of the link collections, the compacted
   stream holds exactly the links of the link store.
   */
  lemma {:induction false} CompactionRebuildsLinks(calls: seq<Call>, topicOf: Source -> string, ctx: CdcContext, now: nat)
    requires UserRun(calls)
    ensures LinksKept(Compacted(Published(topicOf, Stream(ctx, now, Run(calls).log.entries)))) == Run(calls).links.Values
  {
    var compacted := Compacted(Published(topicOf, Stream(ctx, now, Run(calls).log.entries)));
    forall l | l in Run(calls).links ensures Run(calls).links[l] in LinksKept(compacted) {
      LinkIsKept(calls, topicOf, ctx, now, l);
    }
    forall t | t in compacted && LinkChange(compacted[t])
      ensures ReadLink(compacted[t].envelope.after.value).value in Run(calls).links.Values
    {
      KeptIsLink(calls, topicOf, ctx, now, compacted, t);
    }
  }
}
