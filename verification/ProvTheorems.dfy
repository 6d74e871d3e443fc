/** What the PROV-O export promises: it validates, reads back, and chains each transaction. */
module ProvTheorems {
  import opened Prelude
  import opened Json
  import opened Audit
  import opened AuditLog
  import opened Prov
  import opened ProvGraph

  // ---- Every export validates ----

  /** The field names the export uses. */
  const OWN_NAMES: set<string> := {
    "@id", "@type", "axon:operation", "axon:auditId", "axon:version", NATIVE,
    "axon:actor", "axon:collection", "axon:entityId", "axon:snapshotRole", "axon:state"}

  const PROV_NAMES: set<string> := {
    "prov:startedAtTime", "prov:endedAtTime", "prov:wasAssociatedWith", "prov:used", INFORMED, "prov:wasGeneratedBy"}

  const PROV_TYPES: set<string> := {ACTIVITY, "prov:Agent", "prov:Entity"}

  lemma {:induction false} UnprefixedTerm(t: string)
    requires t != [] && t[0] != 'p'
    ensures TermOk(t)
  {
    assert |t| >= 5 ==> t[..5][0] == t[0];
    assert "prov:"[0] == 'p';
  }

  lemma {:induction false} OwnNamesOk(t: string)
    requires t in OWN_NAMES
    ensures TermOk(t)
  {
    assert t[0] == '@' || t[0] == 'a';
    UnprefixedTerm(t);
  }

  lemma {:induction false} OfficialTerm(t: string, i: nat)
    requires i < |OFFICIAL_TERMS| && t == "prov:" + OFFICIAL_TERMS[i]
    ensures TermOk(t)
  {
    assert t[5..] == OFFICIAL_TERMS[i];
  }

  lemma {:induction false} TypesOk(t: string)
    requires t in PROV_TYPES
    ensures TermOk(t)
  {
    if t == ACTIVITY { OfficialTerm(t, 0); }
    if t == "prov:Agent" { OfficialTerm(t, 1); }
    if t == "prov:Entity" { OfficialTerm(t, 2); }
  }

  lemma {:induction false} TimeNamesOk()
    ensures TermOk("prov:endedAtTime") && TermOk("prov:startedAtTime") && TermOk("prov:used")
  {
    OfficialTerm("prov:endedAtTime", 3);
    OfficialTerm("prov:startedAtTime", 4);
    OfficialTerm("prov:used", 5);
  }

  lemma {:induction false} RelationNamesOk()
    ensures TermOk("prov:wasAssociatedWith") && TermOk("prov:wasGeneratedBy") && TermOk(INFORMED)
  {
    OfficialTerm("prov:wasAssociatedWith", 6);
    OfficialTerm("prov:wasGeneratedBy", 7);
    OfficialTerm(INFORMED, 8);
  }

  lemma {:induction false} ProvNamesOk(t: string)
    requires t in PROV_NAMES
    ensures TermOk(t)
  {
    TimeNamesOk();
    RelationNamesOk();
  }

  /** A node with the export's names and one of its types. */
  predicate TypedNode(m: map<string, Json>, kind: string)
  {
    m.Keys <= OWN_NAMES + PROV_NAMES && "@id" in m && "@type" in m && m["@type"] == Str(kind)
  }

  lemma {:induction false} TypedNodeValid(m: map<string, Json>, kind: string)
    requires TypedNode(m, kind) && kind in PROV_TYPES
    ensures ValidateNode(Obj(m)) == Ok(()) && (IsActivity(Obj(m)) <==> kind == ACTIVITY)
  {
    TypesOk(kind);
    forall k | k in m ensures TermOk(k) {
      if k in OWN_NAMES { OwnNamesOk(k); } else { ProvNamesOk(k); }
    }
  }

  lemma {:induction false} ActivityBaseTyped(site: Site, e: AuditEntry)
    ensures TypedNode(ActivityBase(site, e), ACTIVITY)
    ensures var m := ActivityBase(site, e); NATIVE in m && m[NATIVE] == Obj(NativeMembers(e)) && INFORMED !in m
  {
  }

  lemma {:induction false} WithTyped(m: map<string, Json>, kind: string, key: string, v: Option<Json>)
    requires TypedNode(m, kind) && key in PROV_NAMES
    ensures TypedNode(With(m, key, v), kind)
  {
    assert key != "@type";
  }

  lemma {:induction false} ActivityFields(site: Site, e: AuditEntry, informedBy: Option<string>)
    ensures var m := ActivityMembers(site, e, informedBy);
            && TypedNode(m, ACTIVITY)
            && NATIVE in m && m[NATIVE] == Obj(NativeMembers(e))
            && Field(m, INFORMED) == (if informedBy.Some? then Some(Ref(informedBy.value)) else None)
  {
    var used := if e.dataBefore.Some? then Some(Ref(BeforeIri(site, e))) else None;
    var informed := if informedBy.Some? then Some(Ref(informedBy.value)) else None;
    ActivityBaseTyped(site, e);
    ActivityWith(ActivityBase(site, e), Obj(NativeMembers(e)), used, informed);
  }

  lemma {:induction false} ActivityWith(base: map<string, Json>, native: Json, used: Option<Json>, informed: Option<Json>)
    requires TypedNode(base, ACTIVITY) && NATIVE in base && base[NATIVE] == native && INFORMED !in base
    ensures var m := With(With(base, "prov:used", used), INFORMED, informed);
            TypedNode(m, ACTIVITY) && NATIVE in m && m[NATIVE] == native && Field(m, INFORMED) == informed
  {
    WithTyped(base, ACTIVITY, "prov:used", used);
    WithTyped(With(base, "prov:used", used), ACTIVITY, INFORMED, informed);
    assert NATIVE != "prov:used" && NATIVE != INFORMED && INFORMED != "prov:used";
  }

  lemma {:induction false} AgentTyped(site: Site, e: AuditEntry)
    ensures TypedNode(AgentMembers(site, e), "prov:Agent")
  {
  }

  lemma {:induction false} BeforeTyped(site: Site, e: AuditEntry, state: Json)
    ensures TypedNode(BeforeMembers(site, e, state), "prov:Entity")
  {
  }

  lemma {:induction false} AffectedTyped(site: Site, e: AuditEntry)
    ensures TypedNode(AffectedMembers(site, e), "prov:Entity")
  {
  }

  predicate ValidExtra(node: Json)
  {
    ValidateNode(node) == Ok(()) && !IsActivity(node)
  }

  /** The nodes of one entry: a valid activity, then valid nodes of other kinds. */
  ghost predicate EntryNodes(activity: Json, nodes: seq<Json>)
  {
    && nodes != [] && nodes[0] == activity && ValidateNode(activity) == Ok(()) && IsActivity(activity)
    && forall i :: 0 < i < |nodes| ==> ValidExtra(nodes[i])
  }

  lemma {:induction false} ExtrasAreOther(activity: Json, nodes: seq<Json>)
    requires EntryNodes(activity, nodes)
    ensures [activity] + nodes[1..] == nodes
    ensures forall i :: 0 <= i < |nodes[1..]| ==> !IsActivity(nodes[1..][i])
  {
    forall i | 0 <= i < |nodes[1..]| ensures !IsActivity(nodes[1..][i]) { assert ValidExtra(nodes[i + 1]); }
  }

  lemma {:induction false} ListedNodes(activity: Json, agent: Json, before: Option<Json>, affected: Json)
    requires ValidateNode(activity) == Ok(()) && IsActivity(activity) && ValidExtra(agent) && ValidExtra(affected)
    requires before.Some? ==> ValidExtra(before.value)
    ensures EntryNodes(activity, [activity, agent] + (if before.Some? then [before.value] else []) + [affected])
  {
  }

  lemma {:induction false} NodesAre(site: Site, e: AuditEntry, informedBy: Option<string>)
    ensures EntryNodes(Obj(ActivityMembers(site, e, informedBy)), NodesFor(site, e, informedBy))
  {
    var activity, agent := ActivityMembers(site, e, informedBy), AgentMembers(site, e);
    var affected := AffectedMembers(site, e);
    ActivityFields(site, e, informedBy);
    TypedNodeValid(activity, ACTIVITY);
    AgentTyped(site, e);
    TypedNodeValid(agent, "prov:Agent");
    AffectedTyped(site, e);
    TypedNodeValid(affected, "prov:Entity");
    var before := if e.dataBefore.Some? then Some(Obj(BeforeMembers(site, e, e.dataBefore.value))) else None;
    if e.dataBefore.Some? {
      BeforeTyped(site, e, e.dataBefore.value);
      TypedNodeValid(BeforeMembers(site, e, e.dataBefore.value), "prov:Entity");
    }
    ListedNodes(Obj(activity), Obj(agent), before, Obj(affected));
  }

  lemma {:induction false} ValidateConcat(a: seq<Json>, b: seq<Json>)
    requires ValidateNodes(a) == Ok(()) && forall i :: 0 <= i < |b| ==> ValidateNode(b[i]) == Ok(())
    ensures ValidateNodes(a + b) == Ok(())
    decreases |b|
  {
    if b == [] {
      assert a + b == a;
    } else {
      assert (a + b)[..|a + b| - 1] == a + b[..|b| - 1];
      ValidateConcat(a, b[..|b| - 1]);
    }
  }

  lemma {:induction false} GraphValidates(site: Site, entries: seq<AuditEntry>)
    ensures ValidateNodes(GraphOf(site, entries)) == Ok(())
    decreases |entries|
  {
    if entries != [] {
      var init, last := entries[..|entries| - 1], entries[|entries| - 1];
      GraphValidates(site, init);
      NodesAre(site, last, InformedBy(site, init, last));
      ValidateConcat(GraphOf(site, init), NodesFor(site, last, InformedBy(site, init, last)));
    }
  }

  lemma {:induction false} DocumentParts(site: Site, graph: seq<Json>)
    ensures Validate(Document(site, graph)) == ValidateNodes(graph)
    ensures Member(Document(site, graph), "@graph") == Some(Arr(graph))
  {
    var d := Document(site, graph);
    assert d.members["@graph"] == Arr(graph);
    assert d.members["@context"].members["prov"] == Str(PROV_NAMESPACE);
  }

  /** Every export passes the validator. */
  lemma {:induction false} ExportValidates(site: Site, entries: seq<AuditEntry>)
    ensures Validate(Document(site, GraphOf(site, entries))) == Ok(())
  {
    DocumentParts(site, GraphOf(site, entries));
    GraphValidates(site, entries);
  }

  // ---- Reading an export back ----

  lemma {:induction false} CollectNone(a: seq<Json>, b: seq<Json>)
    requires Collect(a).Ok? && forall i :: 0 <= i < |b| ==> !IsActivity(b[i])
    ensures Collect(a + b) == Collect(a)
    decreases |b|
  {
    if b == [] {
      assert a + b == a;
    } else {
      assert (a + b)[..|a + b| - 1] == a + b[..|b| - 1];
      CollectNone(a, b[..|b| - 1]);
    }
  }

  lemma {:induction false} ActivityReads(site: Site, e: AuditEntry, informedBy: Option<string>)
    requires InRange(e)
    ensures ReadNode(Obj(ActivityMembers(site, e, informedBy))) == Ok(Some(Normalised(e)))
  {
    ActivityFields(site, e, informedBy);
    NativeRoundTrip(e);
  }

  lemma {:induction false} CollectSnoc(graph: seq<Json>, node: Json)
    requires Collect(graph).Ok? && ReadNode(node).Ok? && ReadNode(node).value.Some?
    ensures Collect(graph + [node]) == Ok(Collect(graph).value + [ReadNode(node).value.value])
  {
    assert (graph + [node])[..|graph|] == graph;
  }

  lemma {:induction false} SplitNodes(graph: seq<Json>, activity: Json, nodes: seq<Json>, rest: seq<Json>)
    requires EntryNodes(activity, nodes) && rest == nodes[1..]
    ensures graph + nodes == (graph + [activity]) + rest
    ensures forall i :: 0 <= i < |rest| ==> !IsActivity(rest[i])
  {
    ExtrasAreOther(activity, nodes);
  }

  lemma {:induction false} CollectNext(site: Site, graph: seq<Json>, e: AuditEntry, informedBy: Option<string>)
    requires Collect(graph).Ok? && InRange(e)
    ensures Collect(graph + NodesFor(site, e, informedBy)) == Ok(Collect(graph).value + [Normalised(e)])
  {
    NodesAre(site, e, informedBy);
    ActivityReads(site, e, informedBy);
    var activity, nodes := Obj(ActivityMembers(site, e, informedBy)), NodesFor(site, e, informedBy);
    CollectSnoc(graph, activity);
    SplitNodes(graph, activity, nodes, nodes[1..]);
    CollectNone(graph + [activity], nodes[1..]);
  }

  function NormalisedAll(entries: seq<AuditEntry>): seq<AuditEntry>
  {
    seq(|entries|, i requires 0 <= i < |entries| => Normalised(entries[i]))
  }

  lemma {:induction false} NormalisedSnoc(entries: seq<AuditEntry>, e: AuditEntry)
    ensures NormalisedAll(entries + [e]) == NormalisedAll(entries) + [Normalised(e)]
  {
  }

  lemma {:induction false} CollectMore(site: Site, init: seq<AuditEntry>, last: AuditEntry)
    requires Collect(GraphOf(site, init)) == Ok(NormalisedAll(init)) && InRange(last)
    ensures Collect(GraphOf(site, init + [last])) == Ok(NormalisedAll(init + [last]))
  {
    GraphNext(site, init, last);
    CollectNext(site, GraphOf(site, init), last, InformedBy(site, init, last));
    NormalisedSnoc(init, last);
  }

  lemma {:induction false} CollectExport(site: Site, entries: seq<AuditEntry>)
    requires forall i :: 0 <= i < |entries| ==> InRange(entries[i])
    ensures Collect(GraphOf(site, entries)) == Ok(NormalisedAll(entries))
    decreases |entries|
  {
    if entries == [] {
      assert NormalisedAll(entries) == [];
    } else {
      var init, last := entries[..|entries| - 1], entries[|entries| - 1];
      CollectExport(site, init);
      CollectMore(site, init, last);
      assert entries == init + [last];
    }
  }

  /** Re-importing an export gives the normalised entries, sorted by id. */
  lemma {:induction false} ImportOfExport(site: Site, entries: seq<AuditEntry>)
    requires forall i :: 0 <= i < |entries| ==> InRange(entries[i])
    ensures ImportOf(Document(site, GraphOf(site, entries))) == Ok(SortById(NormalisedAll(entries)))
  {
    ExportValidates(site, entries);
    DocumentParts(site, GraphOf(site, entries));
    CollectExport(site, entries);
  }

  /** Export and re-import give the same list back exactly when it is in id order and every entry is lossless. */
  lemma {:induction false} RoundTripExactly(site: Site, entries: seq<AuditEntry>)
    requires forall i :: 0 <= i < |entries| ==> InRange(entries[i])
    ensures ImportOf(Document(site, GraphOf(site, entries))) == Ok(entries) <==>
            NonDecreasingIds(entries) && forall i :: 0 <= i < |entries| ==> Lossless(entries[i])
  {
    ImportOfExport(site, entries);
    var n := NormalisedAll(entries);
    SortOrders(n);
    if NonDecreasingIds(entries) {
      assert NonDecreasingIds(n);
      SortKeepsOrdered(n);
      AllLossless(entries);
    }
  }

  lemma {:induction false} AllLossless(entries: seq<AuditEntry>)
    ensures NormalisedAll(entries) == entries <==> forall i :: 0 <= i < |entries| ==> Lossless(entries[i])
  {
    var n := NormalisedAll(entries);
    forall i | 0 <= i < |entries| ensures n[i] == entries[i] <==> Lossless(entries[i]) {
      LosslessExactly(entries[i]);
    }
  }

  // ---- Transactions ----

  /** The activity nodes of a graph, in order. */
  function Activities(graph: seq<Json>): seq<Json>
  {
    if graph == [] then []
    else
      var init := Activities(graph[..|graph| - 1]);
      if IsActivity(graph[|graph| - 1]) then init + [graph[|graph| - 1]] else init
  }

  lemma {:induction false} ActivitiesNone(a: seq<Json>, b: seq<Json>)
    requires forall i :: 0 <= i < |b| ==> !IsActivity(b[i])
    ensures Activities(a + b) == Activities(a)
    decreases |b|
  {
    if b == [] {
      assert a + b == a;
    } else {
      assert (a + b)[..|a + b| - 1] == a + b[..|b| - 1];
      ActivitiesNone(a, b[..|b| - 1]);
    }
  }

  lemma {:induction false} ActivitiesSnoc(graph: seq<Json>, node: Json)
    requires IsActivity(node)
    ensures Activities(graph + [node]) == Activities(graph) + [node]
  {
    assert (graph + [node])[..|graph|] == graph;
  }

  lemma {:induction false} ActivitiesNext(site: Site, graph: seq<Json>, e: AuditEntry, informedBy: Option<string>)
    ensures Activities(graph + NodesFor(site, e, informedBy)) == Activities(graph) + [Obj(ActivityMembers(site, e, informedBy))]
  {
    var activity, nodes := Obj(ActivityMembers(site, e, informedBy)), NodesFor(site, e, informedBy);
    NodesAre(site, e, informedBy);
    ActivitiesSnoc(graph, activity);
    SplitNodes(graph, activity, nodes, nodes[1..]);
    ActivitiesNone(graph + [activity], nodes[1..]);
  }

  function ActivityOf(site: Site, entries: seq<AuditEntry>, i: nat): Json
    requires i < |entries|
  {
    Obj(ActivityMembers(site, entries[i], InformedBy(site, entries[..i], entries[i])))
  }

  lemma {:induction false} ActivityAt(site: Site, entries: seq<AuditEntry>, i: nat)
    requires i < |entries|
    ensures |Activities(GraphOf(site, entries))| == |entries|
    ensures Activities(GraphOf(site, entries))[i] == ActivityOf(site, entries, i)
    decreases |entries|
  {
    var init, last := entries[..|entries| - 1], entries[|entries| - 1];
    assert entries == init + [last];
    GraphNext(site, init, last);
    ActivitiesNext(site, GraphOf(site, init), last, InformedBy(site, init, last));
    if init != [] { ActivityAt(site, init, if i < |init| then i else 0); }
    assert i < |init| ==> init[..i] == entries[..i];
  }

  lemma {:induction false} InformedMember(site: Site, e: AuditEntry, informedBy: Option<string>)
    ensures Member(Obj(ActivityMembers(site, e, informedBy)), INFORMED) ==
            if informedBy.Some? then Some(Ref(informedBy.value)) else None
  {
    ActivityFields(site, e, informedBy);
  }

  lemma {:induction false} ActivityIriIdentifies(site: Site, a: nat, b: nat)
    ensures ActivityIri(site, a) == ActivityIri(site, b) <==> a == b
  {
    var head := "/tenants/" + site.tenant + "/databases/" + site.database + "/audit/";
    var s, t := ActivityIri(site, a), ActivityIri(site, b);
    assert s == head + NatText(a) + "/activity" && t == head + NatText(b) + "/activity";
    if s == t {
      assert s[|head|..|s| - |"/activity"|] == NatText(a);
      assert t[|head|..|t| - |"/activity"|] == NatText(b);
      NatTextInjective(a, b);
    }
  }

  /** The transaction id in the native entry of an activity. */
  function TransactionOf(node: Json): Option<string>
  {
    match Member(node, NATIVE)
    case Some(native) => (match Member(native, "transaction_id") case Some(Str(t)) => Some(t) case _ => None)
    case None => None
  }

  function IdOf(node: Json): Option<Json>
  {
    Member(node, "@id")
  }

  /** The target of an activity's `prov:wasInformedBy`. */
  function InformantOf(node: Json): Option<Json>
  {
    match Member(node, INFORMED) case Some(ref) => Member(ref, "@id") case None => None
  }

  datatype ProvEdge = ProvEdge(source: Option<Json>, target: Option<Json>)

  /** The `prov:wasInformedBy` edges among the activities of one transaction, as the document shows them. */
  ghost function InformedEdges(graph: seq<Json>, t: string): set<ProvEdge>
  {
    set node | node in Activities(graph) && TransactionOf(node) == Some(t) && Member(node, INFORMED).Some?
      :: ProvEdge(IdOf(node), InformantOf(node))
  }

  function IriJson(site: Site, e: AuditEntry): Option<Json>
  {
    Some(Str(ActivityIri(site, e.id)))
  }

  /** Each entry of the list pointing to the one before it. */
  ghost function ChainEdges(site: Site, chain: seq<AuditEntry>): set<ProvEdge>
  {
    set j | 0 < j < |chain| :: StepAt(site, chain, j)
  }

  function StepAt(site: Site, chain: seq<AuditEntry>, j: nat): ProvEdge
    requires 0 < j < |chain|
  {
    ProvEdge(IriJson(site, chain[j]), IriJson(site, chain[j - 1]))
  }

  lemma {:induction false} ActivityShows(site: Site, e: AuditEntry, informedBy: Option<string>)
    ensures var node := Obj(ActivityMembers(site, e, informedBy));
            && IdOf(node) == IriJson(site, e) && TransactionOf(node) == e.transactionId
            && Member(node, INFORMED).Some? == informedBy.Some?
            && (informedBy.Some? ==> InformantOf(node) == Some(Str(informedBy.value)))
  {
    InformedMember(site, e, informedBy);
    ActivityId(site, e, informedBy);
    ActivityFields(site, e, informedBy);
    SnapshotFields(e);
    assert informedBy.Some? ==> Member(Ref(informedBy.value), "@id") == Some(Str(informedBy.value));
  }

  lemma {:induction false} ActivityId(site: Site, e: AuditEntry, informedBy: Option<string>)
    ensures IdOf(Obj(ActivityMembers(site, e, informedBy))) == IriJson(site, e)
  {
    assert ActivityBase(site, e)["@id"] == Str(ActivityIri(site, e.id));
    assert "@id" != "prov:used" && "@id" != INFORMED;
  }

  lemma {:induction false} TransactionPosition(entries: seq<AuditEntry>, t: string, i: nat)
    requires i < |entries| && entries[i].transactionId == Some(t)
    ensures |OfTransaction(entries[..i], t)| < |OfTransaction(entries, t)|
    ensures OfTransaction(entries, t)[|OfTransaction(entries[..i], t)|] == entries[i]
    ensures OfTransaction(entries[..i], t) <= OfTransaction(entries, t)
    decreases |entries|
  {
    var init := entries[..|entries| - 1];
    if i < |init| {
      TransactionPosition(init, t, i);
      assert init[..i] == entries[..i];
    } else {
      assert entries[..i] == init;
    }
  }

  lemma {:induction false} TransactionIndex(entries: seq<AuditEntry>, t: string, j: nat) returns (i: nat)
    requires j < |OfTransaction(entries, t)|
    ensures i < |entries| && entries[i].transactionId == Some(t) && |OfTransaction(entries[..i], t)| == j
    decreases |entries|
  {
    var init := entries[..|entries| - 1];
    if j < |OfTransaction(init, t)| {
      i := TransactionIndex(init, t, j);
      assert init[..i] == entries[..i];
    } else {
      i := |init|;
    }
  }

  /** The edge an activity of the transaction shows is the step to its predecessor in the chain. */
  lemma {:induction false} EdgeIsStep(site: Site, entries: seq<AuditEntry>, t: string, i: nat)
    requires i < |entries| && entries[i].transactionId == Some(t)
    ensures var node, chain, j := ActivityOf(site, entries, i), OfTransaction(entries, t), |OfTransaction(entries[..i], t)|;
            && TransactionOf(node) == Some(t) && (Member(node, INFORMED).Some? <==> j > 0)
            && j < |chain| && IdOf(node) == IriJson(site, chain[j])
            && (j > 0 ==> InformantOf(node) == IriJson(site, chain[j - 1]))
  {
    ActivityShows(site, entries[i], InformedBy(site, entries[..i], entries[i]));
    TransactionPosition(entries, t, i);
  }

  lemma {:induction false} ActivitiesAre(site: Site, entries: seq<AuditEntry>, node: Json)
    requires node in Activities(GraphOf(site, entries))
    ensures exists i :: 0 <= i < |entries| && node == ActivityOf(site, entries, i)
  {
    var all := Activities(GraphOf(site, entries));
    var i :| 0 <= i < |all| && all[i] == node;
    if entries != [] {
      ActivityAt(site, entries, 0);
      ActivityAt(site, entries, i);
    }
  }

  lemma {:induction false} EdgeInChain(site: Site, entries: seq<AuditEntry>, t: string, node: Json)
    requires node in Activities(GraphOf(site, entries)) && TransactionOf(node) == Some(t) && Member(node, INFORMED).Some?
    ensures ProvEdge(IdOf(node), InformantOf(node)) in ChainEdges(site, OfTransaction(entries, t))
  {
    ActivitiesAre(site, entries, node);
    var i :| 0 <= i < |entries| && node == ActivityOf(site, entries, i);
    StepShown(site, entries, t, i);
  }

  lemma {:induction false} TransactionShown(site: Site, entries: seq<AuditEntry>, i: nat)
    requires i < |entries|
    ensures TransactionOf(ActivityOf(site, entries, i)) == entries[i].transactionId
  {
    ActivityShows(site, entries[i], InformedBy(site, entries[..i], entries[i]));
  }

  lemma {:induction false} StepShown(site: Site, entries: seq<AuditEntry>, t: string, i: nat)
    requires i < |entries|
    requires var node := ActivityOf(site, entries, i); TransactionOf(node) == Some(t) && Member(node, INFORMED).Some?
    ensures var node := ActivityOf(site, entries, i);
            ProvEdge(IdOf(node), InformantOf(node)) in ChainEdges(site, OfTransaction(entries, t))
  {
    TransactionShown(site, entries, i);
    EdgeIsStep(site, entries, t, i);
    var j := |OfTransaction(entries[..i], t)|;
    assert 0 < j < |OfTransaction(entries, t)|;
    assert ProvEdge(IdOf(ActivityOf(site, entries, i)), InformantOf(ActivityOf(site, entries, i))) == StepAt(site, OfTransaction(entries, t), j);
  }

  lemma {:induction false} ChainInEdges(site: Site, entries: seq<AuditEntry>, t: string, j: nat)
    requires 0 < j < |OfTransaction(entries, t)|
    ensures StepAt(site, OfTransaction(entries, t), j) in InformedEdges(GraphOf(site, entries), t)
  {
    var i := TransactionIndex(entries, t, j);
    EdgeIsStep(site, entries, t, i);
    ActivityAt(site, entries, i);
    assert ActivityOf(site, entries, i) in Activities(GraphOf(site, entries));
  }

  /**
   Section 3.1 of W3C PROV-O, on the exported document: the `prov:wasInformedBy` edges of a
   transaction are exactly the steps from each of its entries to the one before it in the log.
   */
  lemma {:induction false} TransactionIsOneChain(site: Site, entries: seq<AuditEntry>, t: string)
    ensures InformedEdges(GraphOf(site, entries), t) == ChainEdges(site, OfTransaction(entries, t))
  {
    var graph, chain := GraphOf(site, entries), OfTransaction(entries, t);
    forall node | node in Activities(graph) && TransactionOf(node) == Some(t) && Member(node, INFORMED).Some?
      ensures ProvEdge(IdOf(node), InformantOf(node)) in ChainEdges(site, chain)
    {
      EdgeInChain(site, entries, t, node);
    }
    forall j | 0 < j < |chain| ensures StepAt(site, chain, j) in InformedEdges(graph, t) {
      ChainInEdges(site, entries, t, j);
    }
  }

  lemma {:induction false} TransactionAscends(entries: seq<AuditEntry>, t: string)
    requires AscendingIds(entries)
    ensures AscendingIds(OfTransaction(entries, t))
    ensures forall e :: e in OfTransaction(entries, t) ==> e in entries
    decreases |entries|
  {
    if entries != [] {
      var init, last := entries[..|entries| - 1], entries[|entries| - 1];
      TransactionAscends(init, t);
      var before := OfTransaction(init, t);
      assert entries == init + [last];
      forall i | 0 <= i < |before| ensures before[i].id < last.id {
        assert before[i] in init;
        var k :| 0 <= k < |init| && init[k] == before[i];
      }
    }
  }

  /** For entries in id order the chain passes through pairwise distinct activities. */
  lemma {:induction false} ChainIsSimple(site: Site, entries: seq<AuditEntry>, t: string, i: nat, j: nat)
    requires AscendingIds(entries) && i < j < |OfTransaction(entries, t)|
    ensures ActivityIri(site, OfTransaction(entries, t)[i].id) != ActivityIri(site, OfTransaction(entries, t)[j].id)
  {
    TransactionAscends(entries, t);
    ActivityIriIdentifies(site, OfTransaction(entries, t)[i].id, OfTransaction(entries, t)[j].id);
  }
}
