/** The PROV-O document of a list of audit entries, its validator and its re-import. */
module ProvGraph {
  import opened Prelude
  import opened Json
  import opened Audit
  import opened AuditLog
  import opened Prov

  // ---- Names ----

  function ActivityIri(site: Site, id: nat): string
  {
    "/tenants/" + site.tenant + "/databases/" + site.database + "/audit/" + NatText(id) + "/activity"
  }

  function EntityUrl(site: Site, k: Key): string
  {
    "/tenants/" + site.tenant + "/databases/" + site.database + "/collections/" + k.collection + "/entities/" + k.id
  }

  function BeforeIri(site: Site, e: AuditEntry): string
  {
    EntityUrl(site, e.key) + "#audit-" + NatText(e.id) + "-before"
  }

  function SafeChar(c: char): char
  {
    if 'a' <= c <= 'z' || 'A' <= c <= 'Z' || '0' <= c <= '9' || c == '-' || c == '_' || c == '.' || c == '@' then c else '_'
  }

  function AgentIri(site: Site, actor: string): string
  {
    "/tenants/" + site.tenant + "/agents/" + seq(|actor|, i requires 0 <= i < |actor| => SafeChar(actor[i]))
  }

  // ---- Nodes ----

  function Ref(iri: string): Json
  {
    Obj(map["@id" := Str(iri)])
  }

  function TypedDatetime(site: Site, ns: nat): Json
  {
    Obj(map["@value" := Str(site.datetime(ns)), "@type" := Str("xsd:dateTime")])
  }

  const ACTIVITY := "prov:Activity"
  const NATIVE := "axon:nativeAuditEntry"
  const INFORMED := "prov:wasInformedBy"

  function ActivityBase(site: Site, e: AuditEntry): map<string, Json>
  {
    map[
      "@id" := Str(ActivityIri(site, e.id)),
      "@type" := Str(ACTIVITY),
      "prov:startedAtTime" := TypedDatetime(site, e.timestampNs),
      "prov:endedAtTime" := TypedDatetime(site, e.timestampNs),
      "prov:wasAssociatedWith" := Ref(AgentIri(site, e.actor)),
      "axon:operation" := Str(MutationText(e.mutation)),
      "axon:auditId" := Num(Integer(e.id)),
      "axon:version" := Num(Integer(e.version)),
      NATIVE := Obj(NativeMembers(e))]
  }

  function ActivityMembers(site: Site, e: AuditEntry, informedBy: Option<string>): map<string, Json>
  {
    var used := if e.dataBefore.Some? then Some(Ref(BeforeIri(site, e))) else None;
    var informed := if informedBy.Some? then Some(Ref(informedBy.value)) else None;
    With(With(ActivityBase(site, e), "prov:used", used), INFORMED, informed)
  }

  function AgentMembers(site: Site, e: AuditEntry): map<string, Json>
  {
    map["@id" := Str(AgentIri(site, e.actor)), "@type" := Str("prov:Agent"), "axon:actor" := Str(e.actor)]
  }

  function BeforeMembers(site: Site, e: AuditEntry, state: Json): map<string, Json>
  {
    map[
      "@id" := Str(BeforeIri(site, e)),
      "@type" := Str("prov:Entity"),
      "axon:collection" := Str(e.key.collection),
      "axon:entityId" := Str(e.key.id),
      "axon:snapshotRole" := Str("before"),
      "axon:state" := state]
  }

  function AffectedMembers(site: Site, e: AuditEntry): map<string, Json>
  {
    var base := map[
      "@id" := Str(EntityUrl(site, e.key)),
      "@type" := Str("prov:Entity"),
      "axon:collection" := Str(e.key.collection),
      "axon:entityId" := Str(e.key.id),
      "axon:version" := Num(Integer(e.version))];
    if e.dataAfter.Some? then base["axon:state" := e.dataAfter.value]["prov:wasGeneratedBy" := Ref(ActivityIri(site, e.id))]
    else base
  }

  /** The nodes one entry contributes: activity, agent, the snapshot before if any, the affected entity. */
  function NodesFor(site: Site, e: AuditEntry, informedBy: Option<string>): seq<Json>
  {
    [Obj(ActivityMembers(site, e, informedBy)), Obj(AgentMembers(site, e))]
    + (if e.dataBefore.Some? then [Obj(BeforeMembers(site, e, e.dataBefore.value))] else [])
    + [Obj(AffectedMembers(site, e))]
  }

  /** The entries of one transaction, in order. */
  function OfTransaction(entries: seq<AuditEntry>, t: string): seq<AuditEntry>
  {
    if entries == [] then []
    else
      var init := OfTransaction(entries[..|entries| - 1], t);
      if entries[|entries| - 1].transactionId == Some(t) then init + [entries[|entries| - 1]] else init
  }

  /** The activity before an entry in its transaction. */
  function InformedBy(site: Site, earlier: seq<AuditEntry>, e: AuditEntry): Option<string>
  {
    if e.transactionId.None? then None
    else
      var same := OfTransaction(earlier, e.transactionId.value);
      if same == [] then None else Some(ActivityIri(site, same[|same| - 1].id))
  }

  function GraphOf(site: Site, entries: seq<AuditEntry>): seq<Json>
  {
    if entries == [] then []
    else
      var init, last := entries[..|entries| - 1], entries[|entries| - 1];
      GraphOf(site, init) + NodesFor(site, last, InformedBy(site, init, last))
  }

  function Document(site: Site, graph: seq<Json>): Json
  {
    Obj(map[
      "@context" := Obj(map[
        "prov" := Str(PROV_NAMESPACE),
        "xsd" := Str(XSD_NAMESPACE),
        "axon" := Str("/tenants/" + site.tenant + "/databases/" + site.database + "/vocab#audit-")]),
      "@graph" := Arr(graph)])
  }

  function Lookup(previous: map<string, string>, t: Option<string>): Option<string>
  {
    if t.Some? && t.value in previous then Some(previous[t.value]) else None
  }

  function Remember(previous: map<string, string>, t: Option<string>, iri: string): map<string, string>
  {
    if t.Some? then previous[t.value := iri] else previous
  }

  ghost predicate TracksOne(site: Site, earlier: seq<AuditEntry>, previous: map<string, string>, t: string)
  {
    var same := OfTransaction(earlier, t);
    Lookup(previous, Some(t)) == if same == [] then None else Some(ActivityIri(site, same[|same| - 1].id))
  }

  /** The previous-activity map holds, per transaction, its latest activity. */
  ghost predicate Tracks(site: Site, earlier: seq<AuditEntry>, previous: map<string, string>)
  {
    forall t :: TracksOne(site, earlier, previous, t)
  }

  lemma {:induction false} TracksInformed(site: Site, earlier: seq<AuditEntry>, previous: map<string, string>, e: AuditEntry)
    requires Tracks(site, earlier, previous)
    ensures Lookup(previous, e.transactionId) == InformedBy(site, earlier, e)
  {
    if e.transactionId.Some? { assert TracksOne(site, earlier, previous, e.transactionId.value); }
  }

  lemma {:induction false} TracksNext(site: Site, earlier: seq<AuditEntry>, previous: map<string, string>, e: AuditEntry, iri: string)
    requires Tracks(site, earlier, previous) && iri == ActivityIri(site, e.id)
    ensures Tracks(site, earlier + [e], Remember(previous, e.transactionId, iri))
  {
    assert (earlier + [e])[..|earlier|] == earlier;
    forall t ensures TracksOne(site, earlier + [e], Remember(previous, e.transactionId, iri), t) {
      assert TracksOne(site, earlier, previous, t);
    }
  }

  lemma {:induction false} GraphNext(site: Site, entries: seq<AuditEntry>, e: AuditEntry)
    ensures GraphOf(site, entries + [e]) == GraphOf(site, entries) + NodesFor(site, e, InformedBy(site, entries, e))
  {
    assert (entries + [e])[..|entries|] == entries;
  }

  method ExportProv(site: Site, entries: seq<AuditEntry>) returns (document: Json)
    ensures document == Document(site, GraphOf(site, entries))
  {
    var graph: seq<Json> := [];
    var previous: map<string, string> := map[];
    for i := 0 to |entries|
      invariant graph == GraphOf(site, entries[..i])
      invariant Tracks(site, entries[..i], previous)
    {
      var e := entries[i];
      assert entries[..i + 1] == entries[..i] + [e];
      TracksInformed(site, entries[..i], previous, e);
      GraphNext(site, entries[..i], e);
      graph := graph + NodesFor(site, e, Lookup(previous, e.transactionId));
      TracksNext(site, entries[..i], previous, e, ActivityIri(site, e.id));
      previous := Remember(previous, e.transactionId, ActivityIri(site, e.id));
    }
    assert entries[..|entries|] == entries;
    document := Document(site, graph);
  }

  // ---- Validation ----

  /** A name with the `prov:` prefix must be an official term; other names are free. */
  predicate TermOk(term: string)
  {
    |term| >= 5 && term[..5] == "prov:" ==> term[5..] in OFFICIAL_TERMS
  }

  function ValidateNode(node: Json): Result<(), ProvError>
  {
    if !node.Obj? then Err(NodeNotObject)
    else if "@id" !in node.members then Err(NodeWithoutId)
    else if "@type" in node.members && node.members["@type"].Str? && !TermOk(node.members["@type"].s) then Err(UnsupportedTerm)
    else if exists k :: k in node.members && !TermOk(k) then Err(UnsupportedTerm)
    else Ok(())
  }

  function ValidateNodes(graph: seq<Json>): Result<(), ProvError>
  {
    if graph == [] then Ok(())
    else
      var _ :- ValidateNodes(graph[..|graph| - 1]);
      ValidateNode(graph[|graph| - 1])
  }

  function Member(v: Json, name: string): Option<Json>
  {
    if v.Obj? && name in v.members then Some(v.members[name]) else None
  }

  function Validate(document: Json): Result<(), ProvError>
  {
    match Member(document, "@context")
    case Some(Obj(context)) =>
      (match Member(Obj(context), "prov")
       case Some(Str(ns)) =>
         if ns != PROV_NAMESPACE then Err(WrongNamespace)
         else (match Member(document, "@graph") case Some(Arr(graph)) => ValidateNodes(graph) case _ => Err(MissingGraph))
       case _ => Err(MissingNamespace))
    case _ => Err(MissingContext)
  }

  // ---- Import ----

  predicate IsActivity(node: Json)
  {
    node.Obj? && "@type" in node.members && node.members["@type"] == Str(ACTIVITY)
  }

  /** The entry of an activity node; other nodes hold none. */
  function ReadNode(node: Json): Result<Option<AuditEntry>, ProvError>
  {
    if !IsActivity(node) then Ok(None)
    else if NATIVE !in node.members then Err(ActivityWithoutEntry)
    else
      var e :- FromNative(node.members[NATIVE]);
      Ok(Some(e))
  }

  function Collect(graph: seq<Json>): Result<seq<AuditEntry>, ProvError>
  {
    if graph == [] then Ok([])
    else
      var init :- Collect(graph[..|graph| - 1]);
      var e :- ReadNode(graph[|graph| - 1]);
      Ok(if e.Some? then init + [e.value] else init)
  }

  function ImportOf(document: Json): Result<seq<AuditEntry>, ProvError>
  {
    var _ :- Validate(document);
    match Member(document, "@graph")
    case Some(Arr(graph)) =>
      var entries :- Collect(graph);
      Ok(SortById(entries))
    case _ => Err(MissingGraph)
  }

  method ImportProv(document: Json) returns (r: Result<seq<AuditEntry>, ProvError>)
    ensures r == ImportOf(document)
  {
    var valid := Validate(document);
    if valid.Err? { return Err(valid.error); }
    var member := Member(document, "@graph");
    match member
    case Some(Arr(graph)) =>
      var entries: seq<AuditEntry> := [];
      for i := 0 to |graph|
        invariant Collect(graph[..i]) == Ok(entries)
      {
        assert graph[..i + 1][..i] == graph[..i];
        var e := ReadNode(graph[i]);
        if e.Err? {
          CollectFails(graph, i + 1);
          return Err(e.error);
        }
        if e.value.Some? { entries := entries + [e.value.value]; }
      }
      assert graph[..|graph|] == graph;
      r := Ok(SortById(entries));
    case _ => r := Err(MissingGraph);
  }

  /** The first failing node decides the error of the whole graph. */
  lemma {:induction false} CollectFails(graph: seq<Json>, n: nat)
    requires n <= |graph| && Collect(graph[..n]).Err?
    ensures Collect(graph) == Err(Collect(graph[..n]).error)
    decreases |graph|
  {
    if n == |graph| {
      assert graph[..n] == graph;
    } else {
      assert graph[..|graph| - 1][..n] == graph[..n];
      CollectFails(graph[..|graph| - 1], n);
    }
  }
}
