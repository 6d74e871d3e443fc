/** The PROV-O export of audit entries and its re-import. */
module Prov {
  import opened Prelude
  import opened Json
  import opened Audit

  const PROV_NAMESPACE := "http://www.w3.org/ns/prov#"
  const XSD_NAMESPACE := "http://www.w3.org/2001/XMLSchema#"

  const OFFICIAL_TERMS: seq<string> := [
    "Activity", "Agent", "Entity", "endedAtTime", "startedAtTime", "used",
    "wasAssociatedWith", "wasGeneratedBy", "wasInformedBy"]

  /** Where the entries live, and how a timestamp is written. */
  datatype Site = Site(tenant: string, database: string, datetime: nat -> string)

  datatype ProvError =
    | MissingContext | WrongNamespace | MissingNamespace | MissingGraph
    | NodeNotObject | NodeWithoutId | UnsupportedTerm
    | ActivityWithoutEntry | InvalidEntry(field: string)

  // ---- Mutation names ----

  function MutationText(m: MutationType): string
  {
    match m
    case EntityCreate => "entity.create"
    case EntityUpdate => "entity.update"
    case EntityDelete => "entity.delete"
    case EntityRevert => "entity.revert"
    case LinkCreate => "link.create"
    case LinkDelete => "link.delete"
    case CollectionCreate => "collection.create"
    case CollectionDrop => "collection.drop"
    case TemplateCreate => "template.create"
    case TemplateUpdate => "template.update"
    case TemplateDelete => "template.delete"
    case SchemaUpdate => "schema.update"
    case GuardrailRejection => "guardrail_rejection"
    case IntentPreview => "mutation_intent.preview"
    case IntentApprove => "intent.approve"
    case IntentReject => "intent.reject"
    case IntentExpire => "intent.expire"
    case IntentCommit => "intent.commit"
  }

  function ParseMutation(t: string): Option<MutationType>
  {
    match t
    case "entity.create" | "entity_create" => Some(EntityCreate)
    case "entity.update" | "entity_update" => Some(EntityUpdate)
    case "entity.delete" | "entity_delete" => Some(EntityDelete)
    case "entity.revert" | "entity_revert" => Some(EntityRevert)
    case "link.create" | "link_create" => Some(LinkCreate)
    case "link.delete" | "link_delete" => Some(LinkDelete)
    case "collection.create" | "collection_create" => Some(CollectionCreate)
    case "collection.drop" | "collection_drop" => Some(CollectionDrop)
    case "template.create" | "template_create" => Some(TemplateCreate)
    case "template.update" | "template_update" => Some(TemplateUpdate)
    case "template.delete" | "template_delete" => Some(TemplateDelete)
    case "schema.update" | "schema_update" => Some(SchemaUpdate)
    case "guardrail_rejection" => Some(GuardrailRejection)
    case "mutation_intent.preview" | "intent.preview" | "intent_preview" => Some(IntentPreview)
    case "intent.approve" | "intent_approve" => Some(IntentApprove)
    case "intent.reject" | "intent_reject" => Some(IntentReject)
    case "intent.expire" | "intent_expire" => Some(IntentExpire)
    case "intent.commit" | "intent_commit" => Some(IntentCommit)
    case _ => None
  }

  lemma {:induction false} RowMutationNames(m: MutationType)
    requires m in {EntityCreate, EntityUpdate, EntityDelete, EntityRevert, LinkCreate, LinkDelete}
    ensures ParseMutation(MutationText(m)) == Some(m)
  {
  }

  lemma {:induction false} AdminMutationNames(m: MutationType)
    requires m in {CollectionCreate, CollectionDrop, TemplateCreate, TemplateUpdate, TemplateDelete, SchemaUpdate, GuardrailRejection}
    ensures ParseMutation(MutationText(m)) == Some(m)
  {
  }

  lemma {:induction false} IntentMutationNames(m: MutationType)
    requires m in {IntentPreview, IntentApprove, IntentReject, IntentExpire, IntentCommit}
    ensures ParseMutation(MutationText(m)) == Some(m)
  {
  }

  /** Every displayed mutation name is read back. */
  lemma {:induction false} MutationNamesRoundTrip(m: MutationType)
    ensures ParseMutation(MutationText(m)) == Some(m)
  {
    if m in {EntityCreate, EntityUpdate, EntityDelete, EntityRevert, LinkCreate, LinkDelete} {
      RowMutationNames(m);
    } else if m in {IntentPreview, IntentApprove, IntentReject, IntentExpire, IntentCommit} {
      IntentMutationNames(m);
    } else {
      AdminMutationNames(m);
    }
  }

  // ---- The native JSON form ----

  const U64: nat := 0x1_0000_0000_0000_0000
  const U32: nat := 0x1_0000_0000

  /** The widths the program stores numbers in. */
  predicate InRange(e: AuditEntry)
  {
    && e.id < U64 && e.timestampNs < U64 && e.version < U64
    && (e.lineage.Some? ==> e.lineage.value.policyVersion < U32 && e.lineage.value.schemaVersion < U32)
  }

  function OrNull(v: Option<Json>): Json
  {
    if v.Some? then v.value else Null
  }

  function NonNull(v: Option<Json>): Option<Json>
  {
    if v == Some(Null) then None else v
  }

  function With(m: map<string, Json>, key: string, v: Option<Json>): map<string, Json>
  {
    if v.Some? then m[key := v.value] else m
  }

  function TextOrNone(t: Option<string>): Option<Json>
  {
    if t.Some? then Some(Str(t.value)) else None
  }

  function SidesJson(d: FieldDiff): Json
  {
    Obj(With(With(map[], "before", d.before), "after", d.after))
  }

  function DiffJson(diff: map<string, FieldDiff>): Json
  {
    Obj(map k | k in diff :: SidesJson(diff[k]))
  }

  function ParseDecision(t: string): Option<Decision>
  {
    match t
    case "allow" => Some(Allow)
    case "needs_approval" => Some(NeedsApproval)
    case "deny" => Some(Deny)
    case _ => None
  }

  function LineageJson(l: Lineage): Json
  {
    var required := map[
      "intent_id" := Str(l.intentId),
      "decision" := Str(DecisionName(l.decision)),
      "policy_version" := Num(Integer(l.policyVersion)),
      "schema_version" := Num(Integer(l.schemaVersion))];
    Obj(With(With(required, "approval_id", TextOrNone(l.approvalId)), "reason", TextOrNone(l.reason)))
  }

  function MetadataJson(m: map<string, string>): Json
  {
    Obj(map k | k in m :: Str(m[k]))
  }

  /** The native form of an entry; it has no attribution. */
  function NativeMembers(e: AuditEntry): map<string, Json>
  {
    map[
      "id" := Num(Integer(e.id)),
      "timestamp_ns" := Num(Integer(e.timestampNs)),
      "collection" := Str(e.key.collection),
      "entity_id" := Str(e.key.id),
      "version" := Num(Integer(e.version)),
      "mutation" := Str(MutationText(e.mutation)),
      "operation" := Str(MutationText(e.mutation)),
      "data_before" := OrNull(e.dataBefore),
      "data_after" := OrNull(e.dataAfter),
      "diff" := OrNull(if e.diff.Some? then Some(DiffJson(e.diff.value)) else None),
      "actor" := Str(e.actor),
      "metadata" := MetadataJson(e.metadata),
      "transaction_id" := OrNull(TextOrNone(e.transactionId)),
      "intent_lineage" := OrNull(if e.lineage.Some? then Some(LineageJson(e.lineage.value)) else None)]
  }

  // ---- Reading the native form ----

  function RequiredNat(m: map<string, Json>, key: string, bound: nat): Result<nat, ProvError>
  {
    if key in m && m[key].Num? && m[key].n.Integer? && 0 <= m[key].n.i < bound then Ok(m[key].n.i)
    else Err(InvalidEntry(key))
  }

  function RequiredText(m: map<string, Json>, key: string): Result<string, ProvError>
  {
    if key in m && m[key].Str? then Ok(m[key].s) else Err(InvalidEntry(key))
  }

  /** A field that may be absent or null, otherwise read by `read`. */
  function Optional<T>(m: map<string, Json>, key: string, read: Json -> Option<T>): Result<Option<T>, ProvError>
  {
    if key !in m || m[key] == Null then Ok(None)
    else match read(m[key])
      case Some(v) => Ok(Some(v))
      case None => Err(InvalidEntry(key))
  }

  function ReadSides(v: Json): FieldDiff
  {
    if v.Obj? then FieldDiff(NonNull(Field(v.members, "before")), NonNull(Field(v.members, "after")))
    else FieldDiff(None, None)
  }

  function ReadDiff(v: Json): Option<map<string, FieldDiff>>
  {
    if v.Obj? && forall k :: k in v.members ==> v.members[k].Obj?
    then Some(map k | k in v.members :: ReadSides(v.members[k]))
    else None
  }

  function ReadMetadata(v: Json): Option<map<string, string>>
  {
    if v.Obj? && forall k :: k in v.members ==> v.members[k].Str?
    then Some(map k | k in v.members :: v.members[k].s)
    else None
  }

  /** An optional text field of a record: absent and null both mean none. */
  function ReadText(m: map<string, Json>, key: string): Result<Option<string>, ProvError>
  {
    Optional(m, key, (v: Json) => if v.Str? then Some(v.s) else None)
  }

  function LineageFrom(m: map<string, Json>): Result<Lineage, ProvError>
  {
    var intentId :- RequiredText(m, "intent_id");
    var decision :- RequiredText(m, "decision");
    var approvalId :- ReadText(m, "approval_id");
    var policyVersion :- RequiredNat(m, "policy_version", U32);
    var schemaVersion :- RequiredNat(m, "schema_version", U32);
    var reason :- ReadText(m, "reason");
    match ParseDecision(decision)
    case None => Err(InvalidEntry("decision"))
    case Some(d) => Ok(Lineage(intentId, d, approvalId, policyVersion, schemaVersion, reason))
  }

  function ReadLineage(v: Json): Option<Lineage>
  {
    if !v.Obj? then None
    else match LineageFrom(v.members) case Ok(l) => Some(l) case Err(_) => None
  }

  function AttributionFrom(m: map<string, Json>): Result<Attribution, ProvError>
  {
    var userId :- RequiredText(m, "user_id");
    var tenantId :- RequiredText(m, "tenant_id");
    var jti :- ReadText(m, "jti");
    var authMethod :- RequiredText(m, "auth_method");
    Ok(Attribution(userId, tenantId, jti, authMethod))
  }

  function ReadAttribution(v: Json): Option<Attribution>
  {
    if !v.Obj? then None
    else match AttributionFrom(v.members) case Ok(a) => Some(a) case Err(_) => None
  }

  function MutationFrom(m: map<string, Json>): Result<MutationType, ProvError>
  {
    var name :- if RequiredText(m, "operation").Ok? then RequiredText(m, "operation") else RequiredText(m, "mutation");
    match ParseMutation(name) case Some(x) => Ok(x) case None => Err(InvalidEntry("operation"))
  }

  /** A diff that was not carried along is computed again from the snapshots. */
  function DiffOrComputed(diff: Option<map<string, FieldDiff>>, before: Option<Json>, after: Option<Json>): Option<map<string, FieldDiff>>
  {
    if diff.Some? then diff else RecordedDiff(before, after)
  }

  function EntryFrom(m: map<string, Json>): Result<AuditEntry, ProvError>
  {
    var id :- RequiredNat(m, "id", U64);
    var timestampNs :- RequiredNat(m, "timestamp_ns", U64);
    var collection :- RequiredText(m, "collection");
    var entityId :- RequiredText(m, "entity_id");
    var version :- RequiredNat(m, "version", U64);
    var mutation :- MutationFrom(m);
    var diff :- Optional(m, "diff", ReadDiff);
    var actor :- RequiredText(m, "actor");
    var metadata :- Optional(m, "metadata", ReadMetadata);
    var attribution :- Optional(m, "attribution", ReadAttribution);
    var lineage :- Optional(m, "intent_lineage", ReadLineage);
    var before, after := NonNull(Field(m, "data_before")), NonNull(Field(m, "data_after"));
    Ok(AuditEntry(id, timestampNs, Key(collection, entityId), version, mutation, before, after,
                  DiffOrComputed(diff, before, after), actor,
                  if metadata.Some? then metadata.value else map[],
                  (match Field(m, "transaction_id") case Some(Str(t)) => Some(t) case _ => None),
                  attribution, lineage))
  }

  function FromNative(v: Json): Result<AuditEntry, ProvError>
  {
    if v.Obj? then EntryFrom(v.members) else Err(InvalidEntry(""))
  }

  // ---- What the native form keeps ----

  function NormalDiff(diff: map<string, FieldDiff>): map<string, FieldDiff>
  {
    map k | k in diff :: FieldDiff(NonNull(diff[k].before), NonNull(diff[k].after))
  }

  /** An entry after a trip through the native form. */
  function Normalised(e: AuditEntry): AuditEntry
  {
    var before, after := NonNull(e.dataBefore), NonNull(e.dataAfter);
    var diff := if e.diff.Some? then Some(NormalDiff(e.diff.value)) else None;
    e.(dataBefore := before, dataAfter := after, attribution := None, diff := DiffOrComputed(diff, before, after))
  }

  lemma {:induction false} DiffRoundTrip(diff: map<string, FieldDiff>)
    ensures ReadDiff(DiffJson(diff)) == Some(NormalDiff(diff))
  {
    var v := DiffJson(diff);
    forall k | k in diff ensures ReadSides(v.members[k]) == NormalDiff(diff)[k] {
      assert v.members[k] == SidesJson(diff[k]);
    }
    assert ReadDiff(v).value == NormalDiff(diff);
  }

  lemma {:induction false} MetadataRoundTrip(m: map<string, string>)
    ensures ReadMetadata(MetadataJson(m)) == Some(m)
  {
    assert ReadMetadata(MetadataJson(m)).value == m;
  }

  lemma {:induction false} LineageRoundTrip(l: Lineage)
    requires l.policyVersion < U32 && l.schemaVersion < U32
    ensures ReadLineage(LineageJson(l)) == Some(l)
  {
  }

  lemma {:induction false} RequiredFields(e: AuditEntry)
    requires InRange(e)
    ensures var m := NativeMembers(e);
            && RequiredNat(m, "id", U64) == Ok(e.id)
            && RequiredNat(m, "timestamp_ns", U64) == Ok(e.timestampNs)
            && RequiredText(m, "collection") == Ok(e.key.collection)
            && RequiredText(m, "entity_id") == Ok(e.key.id)
            && RequiredNat(m, "version", U64) == Ok(e.version)
            && RequiredText(m, "actor") == Ok(e.actor)
  {
  }

  lemma {:induction false} MutationField(e: AuditEntry)
    ensures MutationFrom(NativeMembers(e)) == Ok(e.mutation)
  {
    MutationNamesRoundTrip(e.mutation);
    assert RequiredText(NativeMembers(e), "operation") == Ok(MutationText(e.mutation));
  }

  lemma {:induction false} SnapshotFields(e: AuditEntry)
    ensures var m := NativeMembers(e);
            && NonNull(Field(m, "data_before")) == NonNull(e.dataBefore)
            && NonNull(Field(m, "data_after")) == NonNull(e.dataAfter)
            && Field(m, "transaction_id") == Some(OrNull(TextOrNone(e.transactionId)))
  {
  }

  lemma {:induction false} OptionalIs<T>(m: map<string, Json>, key: string, read: Json -> Option<T>, v: Option<Json>, x: Option<T>)
    requires key in m && m[key] == OrNull(v) && v != Some(Null)
    requires if v.Some? then read(v.value) == x && x.Some? else x.None?
    ensures Optional(m, key, read) == Ok(x)
  {
  }

  lemma {:induction false} DiffField(e: AuditEntry)
    ensures Optional(NativeMembers(e), "diff", ReadDiff) == Ok(if e.diff.Some? then Some(NormalDiff(e.diff.value)) else None)
  {
    if e.diff.Some? { DiffRoundTrip(e.diff.value); }
    OptionalIs(NativeMembers(e), "diff", ReadDiff, if e.diff.Some? then Some(DiffJson(e.diff.value)) else None,
               if e.diff.Some? then Some(NormalDiff(e.diff.value)) else None);
  }

  lemma {:induction false} LineageField(e: AuditEntry)
    requires InRange(e)
    ensures Optional(NativeMembers(e), "intent_lineage", ReadLineage) == Ok(e.lineage)
  {
    if e.lineage.Some? { LineageRoundTrip(e.lineage.value); }
    OptionalIs(NativeMembers(e), "intent_lineage", ReadLineage,
               if e.lineage.Some? then Some(LineageJson(e.lineage.value)) else None, e.lineage);
  }

  lemma {:induction false} MetadataField(e: AuditEntry)
    ensures Optional(NativeMembers(e), "metadata", ReadMetadata) == Ok(Some(e.metadata))
    ensures Optional(NativeMembers(e), "attribution", ReadAttribution) == Ok(None)
  {
    MetadataRoundTrip(e.metadata);
    OptionalIs(NativeMembers(e), "metadata", ReadMetadata, Some(MetadataJson(e.metadata)), Some(e.metadata));
  }

  /** Reading the native form of an entry gives the normalised entry. */
  lemma {:induction false} NativeRoundTrip(e: AuditEntry)
    requires InRange(e)
    ensures FromNative(Obj(NativeMembers(e))) == Ok(Normalised(e))
  {
    RequiredFields(e);
    MutationField(e);
    SnapshotFields(e);
    DiffField(e);
    MetadataField(e);
    LineageField(e);
  }

  predicate HasNullSide(diff: map<string, FieldDiff>)
  {
    exists k :: k in diff && (diff[k].before == Some(Null) || diff[k].after == Some(Null))
  }

  /** What the native form cannot carry. */
  predicate Lossless(e: AuditEntry)
  {
    && e.attribution.None? && e.dataBefore != Some(Null) && e.dataAfter != Some(Null)
    && (if e.diff.Some? then !HasNullSide(e.diff.value) else RecordedDiff(e.dataBefore, e.dataAfter).None?)
  }

  lemma {:induction false} NormalDiffSame(diff: map<string, FieldDiff>)
    ensures NormalDiff(diff) == diff <==> !HasNullSide(diff)
  {
    if HasNullSide(diff) {
      var k :| k in diff && (diff[k].before == Some(Null) || diff[k].after == Some(Null));
      assert NormalDiff(diff)[k] != diff[k];
    }
  }

  /** An entry survives the trip unchanged exactly when it is lossless. */
  lemma {:induction false} LosslessExactly(e: AuditEntry)
    ensures Normalised(e) == e <==> Lossless(e)
  {
    if e.diff.Some? { NormalDiffSame(e.diff.value); }
  }

  /** Entries as the constructor builds them record the diff of their snapshots. */
  lemma {:induction false} BuiltEntriesLossless(e: AuditEntry)
    requires e.diff == RecordedDiff(e.dataBefore, e.dataAfter)
    ensures Lossless(e) <==>
            && e.attribution.None? && e.dataBefore != Some(Null) && e.dataAfter != Some(Null)
            && (e.diff.Some? ==> !HasNullSide(e.diff.value))
  {
  }
}
