/** Audit entries, their field-level diffs, and the records they quote. */
module Audit {
  import opened Prelude
  import opened Json

  datatype MutationType =
    | EntityCreate | EntityUpdate | EntityDelete | EntityRevert
    | LinkCreate | LinkDelete
    | CollectionCreate | CollectionDrop
    | TemplateCreate | TemplateUpdate | TemplateDelete
    | SchemaUpdate
    | GuardrailRejection
    | IntentPreview | IntentApprove | IntentReject | IntentExpire | IntentCommit

  /** A row address: collection name and entity id. */
  datatype Key = Key(collection: string, id: string)

  datatype Decision = Allow | NeedsApproval | Deny

  function DecisionName(d: Decision): string
  {
    match d case Allow => "allow" case NeedsApproval => "needs_approval" case Deny => "deny"
  }

  /** Intent lineage carried by audit entries. */
  datatype Lineage = Lineage(
    intentId: string,
    decision: Decision,
    approvalId: Option<string>,
    policyVersion: nat,
    schemaVersion: nat,
    reason: Option<string>)

  datatype Attribution = Attribution(
    userId: string, tenantId: string, jti: Option<string>, authMethod: string)

  datatype FieldDiff = FieldDiff(before: Option<Json>, after: Option<Json>)

  datatype AuditEntry = AuditEntry(
    id: nat,
    timestampNs: nat,
    key: Key,
    version: nat,
    mutation: MutationType,
    dataBefore: Option<Json>,
    dataAfter: Option<Json>,
    diff: Option<map<string, FieldDiff>>,
    actor: string,
    metadata: map<string, string>,
    transactionId: Option<string>,
    attribution: Option<Attribution>,
    lineage: Option<Lineage>)

  // ---------------------------------------------------------------------------
  // Field-level diffs
  // ---------------------------------------------------------------------------

  function Field(m: map<string, Json>, k: string): Option<Json>
  {
    if k in m then Some(m[k]) else None
  }

  function DiffOf(before: Json, after: Json): map<string, FieldDiff>
  {
    if before.Obj? && after.Obj? then
      map k | k in before.members.Keys + after.members.Keys &&
              Field(before.members, k) != Field(after.members, k)
        :: FieldDiff(Field(before.members, k), Field(after.members, k))
    else map[]
  }

  /** Collects the differing fields one key at a time. */
  method ComputeDiff(before: Json, after: Json) returns (diff: map<string, FieldDiff>)
    ensures diff == DiffOf(before, after)
  {
    diff := map[];
    if !before.Obj? || !after.Obj? { return; }
    var allKeys := before.members.Keys + after.members.Keys;
    var todo := allKeys;
    while todo != {}
      invariant todo <= allKeys
      invariant forall k :: k in diff <==> k in DiffOf(before, after) && k !in todo
      invariant forall k :: k in diff ==> diff[k] == DiffOf(before, after)[k]
      decreases |todo|
    {
      var key :| key in todo;
      todo := todo - {key};
      var b, a := Field(before.members, key), Field(after.members, key);
      if b != a { diff := diff[key := FieldDiff(b, a)]; }
    }
  }

  /** Writing the after side of a diff over an object. */
  function Patched(members: map<string, Json>, diff: map<string, FieldDiff>): map<string, Json>
  {
    map k | k in members.Keys + diff.Keys &&
            (if k in diff then diff[k].after.Some? else true)
      :: if k in diff then diff[k].after.value else members[k]
  }

  function Flipped(diff: map<string, FieldDiff>): map<string, FieldDiff>
  {
    map k | k in diff :: FieldDiff(diff[k].after, diff[k].before)
  }

  /** A diff holds exactly what turns one object into the other, in both directions. */
  lemma {:induction false} DiffPatches(before: map<string, Json>, after: map<string, Json>)
    ensures Patched(before, DiffOf(Obj(before), Obj(after))) == after
    ensures Patched(after, Flipped(DiffOf(Obj(before), Obj(after)))) == before
    ensures DiffOf(Obj(before), Obj(after)) == map[] <==> before == after
  {
    var diff := DiffOf(Obj(before), Obj(after));
    var there, back := Patched(before, diff), Patched(after, Flipped(diff));
    forall k ensures Field(there, k) == Field(after, k) && Field(back, k) == Field(before, k) {}
    assert there.Keys == after.Keys by {
      forall k ensures k in there <==> k in after { assert Field(there, k) == Field(after, k); }
    }
    assert back.Keys == before.Keys by {
      forall k ensures k in back <==> k in before { assert Field(back, k) == Field(before, k); }
    }
    forall k | k in after ensures there[k] == after[k] { assert Field(there, k) == Field(after, k); }
    forall k | k in before ensures back[k] == before[k] { assert Field(back, k) == Field(before, k); }
    if diff == map[] {
      assert forall k :: k in there <==> k in before;
      assert there == before;
    }
    if before == after {
      assert forall k :: k !in diff;
    }
  }

  // ---------------------------------------------------------------------------
  // Building an entry
  // ---------------------------------------------------------------------------

  /** The diff recorded for a pair of snapshots. */
  function RecordedDiff(before: Option<Json>, after: Option<Json>): Option<map<string, FieldDiff>>
  {
    if before.Some? && after.Some? then
      var d := DiffOf(before.value, after.value);
      if d == map[] then None else Some(d)
    else None
  }

  /** A fresh entry; the log assigns id and timestamp on append. */
  function NewEntry(key: Key, version: nat, mutation: MutationType, dataBefore: Option<Json>,
                    dataAfter: Option<Json>, actor: Option<string>): AuditEntry
  {
    AuditEntry(0, 0, key, version, mutation, dataBefore, dataAfter,
               RecordedDiff(dataBefore, dataAfter),
               if actor.Some? then actor.value else "anonymous",
               map[], None, None, None)
  }

  // ---------------------------------------------------------------------------
  // The append-only log
  // ---------------------------------------------------------------------------

  datatype Log = Log(entries: seq<AuditEntry>, nextId: nat)

  /** Ids count 1, 2, 3 ... in append order. */
  predicate ValidLog(log: Log)
  {
    log.nextId == |log.entries| &&
    forall i :: 0 <= i < |log.entries| ==> log.entries[i].id == i + 1
  }

  /** `clock(id)` is the wall-clock reading taken when the entry `id` is appended. */
  function Append(log: Log, entry: AuditEntry, clock: nat -> nat): (r: Log)
    ensures ValidLog(log) ==> ValidLog(r)
  {
    var id := log.nextId + 1;
    Log(log.entries + [entry.(id := id, timestampNs := clock(id))], id)
  }

  function AppendAll(log: Log, entries: seq<AuditEntry>, clock: nat -> nat): Log
    decreases |entries|
  {
    if entries == [] then log else AppendAll(Append(log, entries[0], clock), entries[1..], clock)
  }

  /** An entry as the log stored it. */
  predicate StoredAs(stored: AuditEntry, entry: AuditEntry, id: nat)
  {
    stored.id == id && stored == entry.(id := id, timestampNs := stored.timestampNs)
  }

  /** Appending a batch adds exactly its entries, in order, and touches nothing before. */
  lemma {:induction false} AppendAllEntries(log: Log, entries: seq<AuditEntry>, clock: nat -> nat)
    ensures var r := AppendAll(log, entries, clock);
            && r.nextId == log.nextId + |entries|
            && |r.entries| == |log.entries| + |entries|
            && r.entries[..|log.entries|] == log.entries
            && forall i :: 0 <= i < |entries| ==>
                 StoredAs(r.entries[|log.entries| + i], entries[i], log.nextId + i + 1)
    decreases |entries|
  {
    if entries != [] {
      var next := Append(log, entries[0], clock);
      AppendAllEntries(next, entries[1..], clock);
      var r := AppendAll(log, entries, clock);
      assert r.entries[..|log.entries|] == log.entries by {
        assert r.entries[..|next.entries|][..|log.entries|] == r.entries[..|log.entries|];
      }
      forall i | 0 <= i < |entries|
        ensures StoredAs(r.entries[|log.entries| + i], entries[i], log.nextId + i + 1)
      {
        if i > 0 {
          assert StoredAs(r.entries[|next.entries| + (i - 1)], entries[1..][i - 1], next.nextId + (i - 1) + 1);
        } else {
          assert r.entries[..|next.entries|][|log.entries|] == next.entries[|log.entries|];
        }
      }
    }
  }

  lemma {:induction false} AppendAllValid(log: Log, entries: seq<AuditEntry>, clock: nat -> nat)
    requires ValidLog(log)
    ensures ValidLog(AppendAll(log, entries, clock))
    decreases |entries|
  {
    if entries != [] { AppendAllValid(Append(log, entries[0], clock), entries[1..], clock); }
  }
}
