/** The text an intent is bound to names one staged operation list and no other. */
module OperationBinding {
  import opened Json
  import opened CanonicalTheorems
  import opened Audit
  import opened Store
  import opened TxSpec

  function DebugName(m: MutationType): string
  {
    match m
    case EntityCreate => "EntityCreate"
    case EntityUpdate => "EntityUpdate"
    case EntityDelete => "EntityDelete"
    case EntityRevert => "EntityRevert"
    case LinkCreate => "LinkCreate"
    case LinkDelete => "LinkDelete"
    case CollectionCreate => "CollectionCreate"
    case CollectionDrop => "CollectionDrop"
    case TemplateCreate => "TemplateCreate"
    case TemplateUpdate => "TemplateUpdate"
    case TemplateDelete => "TemplateDelete"
    case SchemaUpdate => "SchemaUpdate"
    case GuardrailRejection => "GuardrailRejection"
    case IntentPreview => "IntentPreview"
    case IntentApprove => "IntentApprove"
    case IntentReject => "IntentReject"
    case IntentExpire => "IntentExpire"
    case IntentCommit => "IntentCommit"
  }

  function Version(n: nat): Json { Num(Integer(n)) }

  function LinkFields(op: string, l: LinkIdent): map<string, Json>
  {
    map["op" := Str(op),
        "source_collection" := Str(l.source.collection),
        "source_id" := Str(l.source.id),
        "target_collection" := Str(l.target.collection),
        "target_id" := Str(l.target.id),
        "link_type" := Str(l.linkType)]
  }

  /** The JSON value of one staged operation. */
  function OpValue(op: StagedOp): Json
  {
    match op
    case EntityOp(w) => (
      var key := w.entity.key;
      match w.mutation
      case EntityCreate =>
        Obj(map["op" := Str("create_entity"), "collection" := Str(key.collection), "id" := Str(key.id),
                "data" := w.entity.data])
      case EntityUpdate =>
        Obj(map["op" := Str("update_entity"), "collection" := Str(key.collection), "id" := Str(key.id),
                "data" := w.entity.data, "expected_version" := Version(w.expected)])
      case EntityDelete =>
        Obj(map["op" := Str("delete_entity"), "collection" := Str(key.collection), "id" := Str(key.id),
                "expected_version" := Version(w.expected)])
      case other =>
        Obj(map["op" := Str("unsupported_entity_mutation"), "mutation" := Str(DebugName(other)),
                "collection" := Str(key.collection), "id" := Str(key.id)]))
    case LinkCreateOp(l) => Obj(LinkFields("create_link", l.ident)["metadata" := l.metadata])
    case LinkDeleteOp(l) => Obj(LinkFields("delete_link", l.ident))
  }

  function OpValues(ops: seq<StagedOp>): (r: seq<Json>)
    ensures |r| == |ops| && forall i :: 0 <= i < |ops| ==> r[i] == OpValue(ops[i])
  {
    if ops == [] then [] else [OpValue(ops[0])] + OpValues(ops[1..])
  }

  /** The value that is hashed: the operation kind and the operation list. */
  function Envelope(ops: seq<StagedOp>): Json
  {
    Obj(map["operation_kind" := Str("transaction"),
            "operation" := Obj(map["operations" := Arr(OpValues(ops))])])
  }

  function OperationText(ops: seq<StagedOp>): string
  {
    CanonicalText(Envelope(ops))
  }

  /** Equal in kind, target, data, expected version and created-link metadata. */
  predicate SameStaged(a: StagedOp, b: StagedOp)
  {
    match (a, b)
    case (EntityOp(v), EntityOp(w)) =>
      && v.mutation == w.mutation && v.entity.key == w.entity.key
      && (v.mutation in {EntityCreate, EntityUpdate} ==> v.entity.data == w.entity.data)
      && (v.mutation in {EntityUpdate, EntityDelete} ==> v.expected == w.expected)
    case (LinkCreateOp(l), LinkCreateOp(m)) => l == m
    case (LinkDeleteOp(l), LinkDeleteOp(m)) => l.ident == m.ident
    case _ => false
  }

  function Tag(op: StagedOp): string
  {
    match op
    case EntityOp(w) => (
      match w.mutation
      case EntityCreate => "create_entity"
      case EntityUpdate => "update_entity"
      case EntityDelete => "delete_entity"
      case _ => "unsupported_entity_mutation")
    case LinkCreateOp(_) => "create_link"
    case LinkDeleteOp(_) => "delete_link"
  }

  lemma {:induction false} TagIsOp(op: StagedOp)
    ensures OpValue(op).Obj? && "op" in OpValue(op).members && OpValue(op).members["op"] == Str(Tag(op))
  {
    FieldNames();
  }

  lemma {:induction false} TagLengths()
    ensures |"create_entity"| == 13 && |"update_entity"| == 13 && |"delete_entity"| == 13
    ensures |"create_link"| == 11 && |"delete_link"| == 11 && |"unsupported_entity_mutation"| == 27
    ensures "create_entity"[0] == 'c' && "update_entity"[0] == 'u' && "delete_entity"[0] == 'd'
    ensures "create_link"[0] == 'c' && "delete_link"[0] == 'd'
  {
  }

  /** The field names of an operation value are pairwise different. */
  lemma {:induction false} FieldNames()
    ensures |"op"| == 2 && |"id"| == 2 && "op"[0] == 'o' && "id"[0] == 'i'
    ensures |"collection"| == 10 && |"data"| == 4 && |"expected_version"| == 16 && |"mutation"| == 8
    ensures |"source_collection"| == 17 && |"source_id"| == 9 && |"target_collection"| == 17
    ensures |"target_id"| == 9 && |"link_type"| == 9 && |"metadata"| == 8
    ensures "source_collection"[0] == 's' && "target_collection"[0] == 't'
    ensures "source_id"[0] == 's' && "target_id"[0] == 't' && "link_type"[0] == 'l'
    ensures "mutation"[1] == 'u' && "metadata"[1] == 'e'
  {
  }

  lemma {:induction false} SameEntityOps(v: WriteOp, w: WriteOp)
    requires v.mutation == w.mutation && OpValue(EntityOp(v)) == OpValue(EntityOp(w))
    requires v.mutation in {EntityCreate, EntityUpdate, EntityDelete}
    ensures SameStaged(EntityOp(v), EntityOp(w))
  {
    FieldNames();
    var a, b := OpValue(EntityOp(v)).members, OpValue(EntityOp(w)).members;
    assert a["collection"] == b["collection"] && a["id"] == b["id"];
    if v.mutation != EntityDelete { assert a["data"] == b["data"]; }
    if v.mutation != EntityCreate { assert a["expected_version"] == b["expected_version"]; }
  }

  lemma {:induction false} SameOtherOps(v: WriteOp, w: WriteOp)
    requires v.mutation !in {EntityCreate, EntityUpdate, EntityDelete}
    requires w.mutation !in {EntityCreate, EntityUpdate, EntityDelete}
    requires OpValue(EntityOp(v)) == OpValue(EntityOp(w))
    ensures SameStaged(EntityOp(v), EntityOp(w))
  {
    FieldNames();
    var a, b := OpValue(EntityOp(v)).members, OpValue(EntityOp(w)).members;
    assert a["collection"] == b["collection"] && a["id"] == b["id"];
    assert a["mutation"] == b["mutation"];
    DebugNameInjective(v.mutation, w.mutation);
  }

  function NameRank(s: string): nat
  {
    if s == "EntityCreate" then 0 else if s == "EntityUpdate" then 1 else if s == "EntityDelete" then 2
    else if s == "EntityRevert" then 3 else if s == "LinkCreate" then 4 else if s == "LinkDelete" then 5
    else if s == "CollectionCreate" then 6 else if s == "CollectionDrop" then 7
    else if s == "TemplateCreate" then 8 else if s == "TemplateUpdate" then 9 else if s == "TemplateDelete" then 10
    else if s == "SchemaUpdate" then 11 else if s == "GuardrailRejection" then 12
    else if s == "IntentPreview" then 13 else if s == "IntentApprove" then 14 else if s == "IntentReject" then 15
    else if s == "IntentExpire" then 16 else 17
  }

  function MutationRank(m: MutationType): nat
  {
    match m
    case EntityCreate => 0 case EntityUpdate => 1 case EntityDelete => 2 case EntityRevert => 3
    case LinkCreate => 4 case LinkDelete => 5 case CollectionCreate => 6 case CollectionDrop => 7
    case TemplateCreate => 8 case TemplateUpdate => 9 case TemplateDelete => 10 case SchemaUpdate => 11
    case GuardrailRejection => 12 case IntentPreview => 13 case IntentApprove => 14 case IntentReject => 15
    case IntentExpire => 16 case IntentCommit => 17
  }

  lemma {:induction false} NameHasRank(m: MutationType)
    ensures NameRank(DebugName(m)) == MutationRank(m)
  {
  }

  lemma {:induction false} DebugNameInjective(m: MutationType, n: MutationType)
    requires DebugName(m) == DebugName(n)
    ensures m == n
  {
    NameHasRank(m);
    NameHasRank(n);
  }

  lemma {:induction false} SameLinkFields(op: string, l: LinkIdent, m: LinkIdent)
    requires LinkFields(op, l) == LinkFields(op, m)
    ensures l == m
  {
    FieldNames();
    var a, b := LinkFields(op, l), LinkFields(op, m);
    assert a["source_collection"] == b["source_collection"] && a["source_id"] == b["source_id"];
    assert a["target_collection"] == b["target_collection"] && a["target_id"] == b["target_id"];
    assert a["link_type"] == b["link_type"];
  }

  lemma {:induction false} SameCreatedLinks(l: Link, m: Link)
    requires OpValue(LinkCreateOp(l)) == OpValue(LinkCreateOp(m))
    ensures l == m
  {
    FieldNames();
    var a, b := OpValue(LinkCreateOp(l)).members, OpValue(LinkCreateOp(m)).members;
    assert a["metadata"] == b["metadata"];
    assert "metadata" !in LinkFields("create_link", l.ident) && "metadata" !in LinkFields("create_link", m.ident);
    assert LinkFields("create_link", l.ident) == a - {"metadata"};
    assert LinkFields("create_link", m.ident) == b - {"metadata"};
    SameLinkFields("create_link", l.ident, m.ident);
  }

  /** An operation value determines the operation, and only what it should. */
  lemma {:induction false} OpValueDetermines(a: StagedOp, b: StagedOp)
    ensures OpValue(a) == OpValue(b) <==> SameStaged(a, b)
  {
    if OpValue(a) == OpValue(b) {
      TagIsOp(a);
      TagIsOp(b);
      TagLengths();
      match (a, b)
      case (EntityOp(v), EntityOp(w)) =>
        if v.mutation in {EntityCreate, EntityUpdate, EntityDelete} {
          SameEntityOps(v, w);
        } else {
          SameOtherOps(v, w);
        }
      case (LinkCreateOp(l), LinkCreateOp(m)) => SameCreatedLinks(l, m);
      case (LinkDeleteOp(l), LinkDeleteOp(m)) => SameLinkFields("delete_link", l.ident, m.ident);
      case _ =>
    }
  }

  ghost predicate ValidOp(op: StagedOp)
  {
    match op
    case EntityOp(w) => ValidJson(w.entity.data)
    case LinkCreateOp(l) => ValidJson(l.metadata)
    case LinkDeleteOp(_) => true
  }

  lemma {:induction false} OpValueValid(op: StagedOp)
    requires ValidOp(op)
    ensures ValidJson(OpValue(op))
  {
  }

  lemma {:induction false} EnvelopeValid(ops: seq<StagedOp>)
    requires forall i :: 0 <= i < |ops| ==> ValidOp(ops[i])
    ensures ValidJson(Envelope(ops))
  {
    forall i | 0 <= i < |ops| ensures ValidJson(OpValues(ops)[i]) { OpValueValid(ops[i]); }
    assert ValidJson(Arr(OpValues(ops)));
  }

  lemma {:induction false} EnvelopeDetermines(a: seq<StagedOp>, b: seq<StagedOp>)
    requires Envelope(a) == Envelope(b)
    ensures OpValues(a) == OpValues(b)
  {
    assert |"operation"| == 9 && |"operation_kind"| == 14;
    assert Envelope(a).members["operation"] == Envelope(b).members["operation"];
    assert Envelope(a).members["operation"].members["operations"] == Envelope(b).members["operation"].members["operations"];
  }

  /**
   Two staged transactions have the same operation text exactly when they stage the
   same operations in the same order.
   */
  lemma {:induction false} OperationTextBinds(a: seq<StagedOp>, b: seq<StagedOp>)
    requires forall i :: 0 <= i < |a| ==> ValidOp(a[i])
    requires forall i :: 0 <= i < |b| ==> ValidOp(b[i])
    ensures OperationText(a) == OperationText(b) <==>
            |a| == |b| && forall i :: 0 <= i < |a| ==> SameStaged(a[i], b[i])
  {
    EnvelopeValid(a);
    EnvelopeValid(b);
    CanonicalTextInjective(Envelope(a), Envelope(b));
    if Envelope(a) == Envelope(b) {
      EnvelopeDetermines(a, b);
      forall i | 0 <= i < |a| ensures SameStaged(a[i], b[i]) {
        assert OpValues(a)[i] == OpValues(b)[i];
        OpValueDetermines(a[i], b[i]);
      }
    }
    if |a| == |b| && forall i :: 0 <= i < |a| ==> SameStaged(a[i], b[i]) {
      forall i | 0 <= i < |a| ensures OpValues(a)[i] == OpValues(b)[i] { OpValueDetermines(a[i], b[i]); }
      assert OpValues(a) == OpValues(b);
    }
  }
}
