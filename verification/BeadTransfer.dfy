/** Exporting a board and importing the result into an empty one. */
module BeadTransfer {
  import opened Prelude
  import opened Json
  import opened Digraph
  import opened Search
  import opened BeadSpec
  import opened BeadInvariants
  import opened BeadStore

  // ---- What merging the stored links does to the dependency objects ----

  predicate AllDependenciesOk(deps: seq<Json>)
  {
    forall i :: 0 <= i < |deps| ==> DependencyOk(deps[i])
  }

  /** Merging keeps the objects that were there, stays within the schema and records every listed link. */
  lemma {:induction false} MergeRecords(b: Board, id: string, deps: seq<Json>, targets: seq<string>)
    requires forall t :: t in targets ==> Edge(id, t) in b.links && b.links[Edge(id, t)] == BLOCKS
    requires AllDependenciesOk(deps)
    ensures var merged := MergeLinks(b, id, deps, targets);
            && deps <= merged && AllDependenciesOk(merged)
            && forall e :: e in DependencyKeys(merged, id) <==>
                           e in DependencyKeys(deps, id) || (e.source == id && e.target in targets)
    decreases |targets|
  {
    if targets != [] {
      var e := Edge(id, targets[0]);
      assert targets == [targets[0]] + targets[1..];
      if e in DependencyKeys(deps, id) {
        MergeRecords(b, id, deps, targets[1..]);
      } else {
        var entry := DependencyObject(b.links[e], e);
        assert targets[0] in targets;
        AppendKeys(deps, entry, id);
        ObjectKey(b.links[e], e, id);
        MergeRecords(b, id, deps + [entry], targets[1..]);
      }
    }
  }

  lemma {:induction false} MergeIdempotent(b: Board, id: string, deps: seq<Json>, targets: seq<string>)
    requires forall t :: t in targets ==> Edge(id, t) in b.links && Edge(id, t) in DependencyKeys(deps, id)
    ensures MergeLinks(b, id, deps, targets) == deps
    decreases |targets|
  {
    if targets != [] {
      assert targets[0] in targets;
      MergeIdempotent(b, id, deps, targets[1..]);
    }
  }

  function DependencyArray(m: map<string, Json>): Json
  {
    if DEPENDENCIES in m then m[DEPENDENCIES] else Arr([])
  }

  function Members(b: Board, id: string): map<string, Json>
  {
    if id in b.beads && b.beads[id].data.Obj? then b.beads[id].data.members else map[]
  }

  /** The fields of a bead with its stored links merged in. */
  function Merged(rules: Rules, b: Board, id: string): map<string, Json>
    requires ValidRules(rules)
  {
    match MergedFields(rules, b, id, Members(b, id)) case Ok(m) => m case Err(_) => Members(b, id)
  }

  predicate Recorded(m: map<string, Json>, id: string, e: Edge)
  {
    e in RecordedLinks(Obj(m), id)
  }

  ghost predicate MergedAsExpected(rules: Rules, b: Board, id: string, m: map<string, Json>)
    requires ValidRules(rules)
  {
    && m - {DEPENDENCIES} == Members(b, id) - {DEPENDENCIES}
    && SchemaOk(rules, Obj(m))
    && (forall e :: Recorded(m, id, e) <==> Recorded(Members(b, id), id, e) || (e.source == id && e in Followed(b)))
    && (DirectDependencies(rules, b, id) == [] ==> m == Members(b, id))
    && (DirectDependencies(rules, b, id) != [] ==> DEPENDENCIES in m && m[DEPENDENCIES].Arr?)
  }

  lemma {:induction false} SameSchema(rules: Rules, m: map<string, Json>, n: map<string, Json>)
    requires SchemaOk(rules, Obj(m)) && n - {DEPENDENCIES, "id"} == m - {DEPENDENCIES, "id"}
    requires DEPENDENCIES in n ==> DependenciesOk(n[DEPENDENCIES])
    ensures SchemaOk(rules, Obj(n))
  {
    assert STATUS in m - {DEPENDENCIES, "id"};
    assert m[STATUS] == (m - {DEPENDENCIES, "id"})[STATUS];
    assert n[STATUS] == (n - {DEPENDENCIES, "id"})[STATUS];
    assert n - {STATUS, DEPENDENCIES, "id"} == (n - {DEPENDENCIES, "id"}) - {STATUS};
    assert m - {STATUS, DEPENDENCIES, "id"} == (m - {DEPENDENCIES, "id"}) - {STATUS};
  }

  lemma {:induction false} RecordedIs(m: map<string, Json>, id: string, e: Edge)
    requires DependencyArray(m).Arr?
    ensures Recorded(m, id, e) <==> e in DependencyKeys(DependencyArray(m).items, id)
  {
  }

  lemma {:induction false} MergedValue(rules: Rules, b: Board, id: string, m: map<string, Json>)
    requires ValidRules(rules) && id in b.beads && b.beads[id].data == Obj(m) && SchemaOk(rules, Obj(m))
    requires DirectDependencies(rules, b, id) != []
    ensures DependencyArray(m).Arr? && AllDependenciesOk(DependencyArray(m).items)
    ensures forall t :: t in DirectDependencies(rules, b, id) ==> Edge(id, t) in b.links
    ensures var merged := MergeLinks(b, id, DependencyArray(m).items, DirectDependencies(rules, b, id));
            MergedFields(rules, b, id, m) == Ok(m[DEPENDENCIES := Arr(merged)])
  {
    ListedDependencies(rules, b, id);
  }

  lemma {:induction false} MergedSchema(rules: Rules, m: map<string, Json>, deps: seq<Json>)
    requires SchemaOk(rules, Obj(m)) && AllDependenciesOk(deps)
    ensures SchemaOk(rules, Obj(m[DEPENDENCIES := Arr(deps)]))
    ensures m[DEPENDENCIES := Arr(deps)] - {DEPENDENCIES} == m - {DEPENDENCIES}
  {
    var n := m[DEPENDENCIES := Arr(deps)];
    assert n - {DEPENDENCIES} == m - {DEPENDENCIES};
    assert n - {DEPENDENCIES, "id"} == m - {DEPENDENCIES, "id"};
    SameSchema(rules, m, n);
  }

  lemma {:induction false} MergedLinked(rules: Rules, b: Board, id: string, m: map<string, Json>, targets: seq<string>)
    requires ValidRules(rules) && id in b.beads && b.beads[id].data == Obj(m) && SchemaOk(rules, Obj(m))
    requires targets == DirectDependencies(rules, b, id) != []
    requires forall e :: e in b.links ==> b.links[e] == BLOCKS
    ensures MergedFields(rules, b, id, m) == Ok(Merged(rules, b, id))
    ensures MergedAsExpected(rules, b, id, Merged(rules, b, id))
  {
    MergedValue(rules, b, id, m);
    var deps := DependencyArray(m).items;
    MergeRecords(b, id, deps, targets);
    var merged := MergeLinks(b, id, deps, targets);
    MergedSchema(rules, m, merged);
    forall e ensures Recorded(m[DEPENDENCIES := Arr(merged)], id, e) <==> Recorded(m, id, e) || (e.source == id && e in Followed(b)) {
      RecordedIs(m, id, e);
      RecordedIs(m[DEPENDENCIES := Arr(merged)], id, e);
      ListedDependencies(rules, b, id);
      assert e.source == id ==> Edge(id, e.target) == e;
    }
  }

  lemma {:induction false} MergedIs(rules: Rules, b: Board, id: string)
    requires ValidRules(rules) && Sound(rules, b) && id in b.beads
    ensures MergedFields(rules, b, id, Members(b, id)) == Ok(Merged(rules, b, id))
    ensures MergedAsExpected(rules, b, id, Merged(rules, b, id))
  {
    if DirectDependencies(rules, b, id) == [] {
      ListedDependencies(rules, b, id);
      assert b.beads[id].data == Obj(Members(b, id));
      forall e | e in Followed(b) ensures e.source != id {
        assert e.source == id ==> Edge(id, e.target) == e && e.target in DirectDependencies(rules, b, id);
      }
    } else {
      MergedLinked(rules, b, id, Members(b, id), DirectDependencies(rules, b, id));
    }
  }

  // ---- The plan an export gives on an empty board ----

  function RestoredData(rules: Rules, b: Board, id: string): Json
    requires ValidRules(rules)
  {
    Obj(Merged(rules, b, id) - {"id"})
  }

  function RestoredPlan(rules: Rules, b: Board, ids: seq<string>): seq<Planned>
    requires ValidRules(rules)
  {
    seq(|ids|, i requires 0 <= i < |ids| =>
      Planned(ids[i], RestoredData(rules, b, ids[i]), RecordedLinks(Obj(Merged(rules, b, ids[i])), ids[i])))
  }

  /** An item that planning turns into `p` when its id is new. */
  predicate Plans(rules: Rules, item: Json, p: Planned)
  {
    && TextField(item, "id") == Some(p.id) && SchemaOk(rules, WithoutId(item))
    && p.data == WithoutId(item) && p.links == RecordedLinks(item, p.id)
  }

  lemma {:induction false} PlanStep(rules: Rules, plan: seq<Planned>, items: seq<Json>, p: Planned)
    requires items != [] && Plans(rules, items[0], p) && p.id !in PlannedIds(plan)
    ensures PlanFrom(rules, {}, plan, items) == PlanFrom(rules, {}, plan + [p], items[1..])
  {
  }

  predicate DistinctIds(plan: seq<Planned>)
  {
    forall k, j :: 0 <= k < j < |plan| ==> plan[k].id != plan[j].id
  }

  predicate PlansEach(rules: Rules, items: seq<Json>, plan: seq<Planned>)
  {
    |items| == |plan| && (items != [] ==> Plans(rules, items[0], plan[0]) && PlansEach(rules, items[1..], plan[1..]))
  }

  /** Each planned id is new when its turn comes. */
  predicate FreshEach(done: seq<Planned>, plan: seq<Planned>)
    decreases |plan|
  {
    plan == [] || (plan[0].id !in PlannedIds(done) && FreshEach(done + [plan[0]], plan[1..]))
  }

  lemma {:induction false} FreshEachOf(done: seq<Planned>, plan: seq<Planned>)
    requires DistinctIds(done + plan)
    ensures FreshEach(done, plan)
    decreases |plan|
  {
    if plan != [] {
      NewId(done, plan);
      assert (done + [plan[0]]) + plan[1..] == done + plan;
      FreshEachOf(done + [plan[0]], plan[1..]);
    }
  }

  lemma {:induction false} PlanThen(rules: Rules, done: seq<Planned>, items: seq<Json>, plan: seq<Planned>)
    requires items != [] && plan != [] && Plans(rules, items[0], plan[0]) && plan[0].id !in PlannedIds(done)
    requires PlanFrom(rules, {}, done + [plan[0]], items[1..]) == Ok((done + [plan[0]]) + plan[1..])
    ensures PlanFrom(rules, {}, done, items) == Ok(done + plan)
  {
    PlanStep(rules, done, items, plan[0]);
    OneByOne(done, plan);
  }

  lemma {:induction false} OneByOne(done: seq<Planned>, plan: seq<Planned>)
    requires plan != []
    ensures (done + [plan[0]]) + plan[1..] == done + plan
  {
  }

  lemma {:induction false} PlanAll(rules: Rules, done: seq<Planned>, items: seq<Json>, plan: seq<Planned>)
    requires PlansEach(rules, items, plan) && FreshEach(done, plan)
    ensures PlanFrom(rules, {}, done, items) == Ok(done + plan)
    decreases |items|
  {
    if items == [] {
      assert done + plan == done;
    } else {
      PlanAll(rules, done + [plan[0]], items[1..], plan[1..]);
      PlanThen(rules, done, items, plan);
    }
  }

  lemma {:induction false} NewId(done: seq<Planned>, plan: seq<Planned>)
    requires plan != [] && DistinctIds(done + plan)
    ensures plan[0].id !in PlannedIds(done)
  {
    forall p | p in done ensures p.id != plan[0].id {
      var k :| 0 <= k < |done| && done[k] == p;
      assert (done + plan)[k] == p && (done + plan)[|done|] == plan[0];
    }
  }

  /** Planning one exported item restores its bead's fields and links. */
  lemma {:induction false} PlanExported(rules: Rules, b: Board, id: string)
    requires ValidRules(rules) && Sound(rules, b) && id in b.beads
    ensures ExportItem(rules, b, id).Ok?
    ensures Plans(rules, ExportItem(rules, b, id).value,
                  Planned(id, RestoredData(rules, b, id), RecordedLinks(Obj(Merged(rules, b, id)), id)))
  {
    MergedIs(rules, b, id);
    var m := Merged(rules, b, id);
    var item := Obj(m["id" := Str(id)]);
    assert ExportItem(rules, b, id) == Ok(item);
    assert TextField(item, "id") == Some(id);
    assert item.members - {"id"} == m - {"id"};
    assert (m - {"id"}) - {DEPENDENCIES, "id"} == m - {DEPENDENCIES, "id"};
    SameSchema(rules, m, m - {"id"});
    assert FieldOf(item, DEPENDENCIES) == FieldOf(Obj(m), DEPENDENCIES);
  }

  // ---- The links an import of the export makes ----

  /** The dependencies recorded in bead data between beads that are present. */
  ghost function RecordedEdges(b: Board): set<Edge>
  {
    set id, e | id in b.beads && e in RecordedLinks(b.beads[id].data, id) && Within(e, b.beads.Keys) :: e
  }

  lemma {:induction false} LinkInPlan(plan: seq<Planned>, e: Edge)
    ensures e in AllLinks(plan) <==> exists i :: 0 <= i < |plan| && e in plan[i].links
    decreases |plan|
  {
    if plan != [] {
      LinkInPlan(plan[1..], e);
      if i :| 0 <= i < |plan[1..]| && e in plan[1..][i].links { assert e in plan[i + 1].links; }
      if i :| 0 <= i < |plan| && e in plan[i].links {
        assert i > 0 ==> e in plan[1..][i - 1].links;
      }
    }
  }

  ghost predicate Exports(rules: Rules, b: Board, ids: seq<string>)
  {
    ValidRules(rules) && Sound(rules, b) && Ascending(ids) && forall id :: id in ids <==> id in b.beads
  }

  ghost predicate LinkedOrRecorded(b: Board, e: Edge)
  {
    e in b.links || exists id :: id in b.beads && e in RecordedLinks(b.beads[id].data, id)
  }

  /** The links planned for one bead are its stored links and its recorded dependencies. */
  lemma {:induction false} RestoredFor(rules: Rules, b: Board, id: string, e: Edge)
    requires ValidRules(rules) && Sound(rules, b) && id in b.beads
    ensures e in RecordedLinks(Obj(Merged(rules, b, id)), id) <==>
            e in RecordedLinks(b.beads[id].data, id) || (e.source == id && e in b.links)
  {
    FollowsEveryLink(rules, b);
    MergedIs(rules, b, id);
    assert Recorded(Merged(rules, b, id), id, e) <==> e in RecordedLinks(Obj(Merged(rules, b, id)), id);
    assert Obj(Members(b, id)) == b.beads[id].data;
  }

  lemma {:induction false} PlannedAt(rules: Rules, b: Board, ids: seq<string>, id: string) returns (i: nat)
    requires ValidRules(rules) && id in ids
    ensures i < |RestoredPlan(rules, b, ids)|
    ensures RestoredPlan(rules, b, ids)[i].links == RecordedLinks(Obj(Merged(rules, b, id)), id)
  {
    i :| 0 <= i < |ids| && ids[i] == id;
  }

  lemma {:induction false} RestoredLink(rules: Rules, b: Board, ids: seq<string>, e: Edge)
    requires Exports(rules, b, ids)
    ensures e in AllLinks(RestoredPlan(rules, b, ids)) <==> LinkedOrRecorded(b, e)
  {
    var plan := RestoredPlan(rules, b, ids);
    LinkInPlan(plan, e);
    if i :| 0 <= i < |plan| && e in plan[i].links {
      assert ids[i] in ids;
      RestoredFor(rules, b, ids[i], e);
    }
    if e in b.links {
      RestoredFor(rules, b, e.source, e);
      var i := PlannedAt(rules, b, ids, e.source);
    }
    if id :| id in b.beads && e in RecordedLinks(b.beads[id].data, id) {
      RestoredFor(rules, b, id, e);
      var i := PlannedAt(rules, b, ids, id);
    }
  }

  lemma {:induction false} RestoredRelevant(rules: Rules, b: Board, ids: seq<string>, e: Edge)
    requires Exports(rules, b, ids)
    ensures e in AllLinks(RestoredPlan(rules, b, ids)) && Within(e, b.beads.Keys) <==> e in b.links.Keys + RecordedEdges(b)
  {
    RestoredLink(rules, b, ids, e);
  }

  lemma {:induction false} RestoredIds(rules: Rules, b: Board, ids: seq<string>)
    requires Exports(rules, b, ids)
    ensures PlannedIds(RestoredPlan(rules, b, ids)) == b.beads.Keys
  {
    var plan := RestoredPlan(rules, b, ids);
    forall id | id in b.beads ensures id in PlannedIds(plan) {
      var i :| 0 <= i < |ids| && ids[i] == id;
      assert plan[i] in plan && plan[i].id == id;
    }
    forall p | p in plan ensures p.id in b.beads {
      var i :| 0 <= i < |plan| && plan[i] == p;
      assert ids[i] in ids && p.id == ids[i];
    }
  }

  lemma {:induction false} RestoredLinks(rules: Rules, b: Board, ids: seq<string>)
    requires Exports(rules, b, ids)
    ensures Relevant(AllLinks(RestoredPlan(rules, b, ids)), b.beads.Keys) == b.links.Keys + RecordedEdges(b)
    ensures PlannedIds(RestoredPlan(rules, b, ids)) == b.beads.Keys
  {
    RestoredIds(rules, b, ids);
    forall e ensures e in AllLinks(RestoredPlan(rules, b, ids)) && Within(e, b.beads.Keys) <==> e in b.links.Keys + RecordedEdges(b) {
      RestoredRelevant(rules, b, ids, e);
    }
    RelevantSet(AllLinks(RestoredPlan(rules, b, ids)), b.beads.Keys, b.links.Keys + RecordedEdges(b));
  }

  lemma {:induction false} RelevantSet(links: seq<Edge>, ids: set<string>, edges: set<Edge>)
    requires forall e :: e in links && Within(e, ids) <==> e in edges
    ensures Relevant(links, ids) == edges
  {
  }

  lemma {:induction false} AscendingDistinct(ids: seq<string>)
    requires Ascending(ids)
    ensures Distinct(ids)
  {
    forall i, j | 0 <= i < j < |ids| ensures ids[i] != ids[j] { LessIrreflexive(ids[i]); }
  }

  lemma {:induction false} EmptyBoardSound(rules: Rules)
    ensures Sound(rules, EMPTY_BOARD)
  {
    assert EMPTY_BOARD.links.Keys == {};
  }

  /** Importing a plan into an empty board. */
  lemma {:induction false} ImportIntoEmpty(rules: Rules, items: seq<Json>, plan: seq<Planned>, edges: set<Edge>)
    requires PlanFrom(rules, {}, [], items) == Ok(plan) && edges == Relevant(AllLinks(plan), PlannedIds(plan))
    ensures var out := Import(rules, EMPTY_BOARD, Arr(items));
            && (out.reply.Ok? <==> Acyclic(edges))
            && (out.reply.Err? ==> out.board == EMPTY_BOARD)
            && (out.reply.Ok? ==>
                  && out.reply.value == |plan|
                  && out.board.beads.Keys == PlannedIds(plan)
                  && (forall p :: p in plan ==> out.board.beads[p.id] == Bead(1, p.data))
                  && out.board.links.Keys == edges)
  {
    EmptyBoardSound(rules);
    assert EMPTY_BOARD.beads.Keys == {} && EMPTY_BOARD.links.Keys == {};
    assert TargetIds(EMPTY_BOARD, plan) == PlannedIds(plan);
    assert EMPTY_BOARD.links.Keys + edges == edges;
    ImportExact(rules, EMPTY_BOARD, Arr(items));
  }

  lemma {:induction false} ExportPlans(rules: Rules, b: Board, ids: seq<string>)
    requires ValidRules(rules) && Sound(rules, b) && forall id :: id in ids ==> id in b.beads
    ensures ExportFrom(rules, b, ids).Ok? && PlansEach(rules, ExportFrom(rules, b, ids).value, RestoredPlan(rules, b, ids))
    decreases |ids|
  {
    if ids != [] {
      assert ids[0] in ids;
      PlanExported(rules, b, ids[0]);
      ExportPlans(rules, b, ids[1..]);
      assert RestoredPlan(rules, b, ids)[1..] == RestoredPlan(rules, b, ids[1..]);
    }
  }

  lemma {:induction false} ExportPlan(rules: Rules, b: Board, ids: seq<string>)
    requires Exports(rules, b, ids)
    ensures ExportFrom(rules, b, ids).Ok?
    ensures PlanFrom(rules, {}, [], ExportFrom(rules, b, ids).value) == Ok(RestoredPlan(rules, b, ids))
  {
    ExportPlans(rules, b, ids);
    RestoredFresh(rules, b, ids);
    FromNothing(RestoredPlan(rules, b, ids));
    PlanAll(rules, [], ExportFrom(rules, b, ids).value, RestoredPlan(rules, b, ids));
  }

  lemma {:induction false} FromNothing(plan: seq<Planned>)
    ensures [] + plan == plan
  {
  }

  lemma {:induction false} RestoredDistinct(rules: Rules, b: Board, ids: seq<string>)
    requires ValidRules(rules) && Distinct(ids)
    ensures DistinctIds(RestoredPlan(rules, b, ids))
  {
    var plan := RestoredPlan(rules, b, ids);
    forall k, j | 0 <= k < j < |plan| ensures plan[k].id != plan[j].id {
      assert plan[k].id == ids[k] && plan[j].id == ids[j];
    }
  }

  lemma {:induction false} FreshFromNothing(plan: seq<Planned>)
    requires DistinctIds(plan)
    ensures FreshEach([], plan)
  {
    FromNothing(plan);
    FreshEachOf([], plan);
  }

  lemma {:induction false} RestoredFresh(rules: Rules, b: Board, ids: seq<string>)
    requires ValidRules(rules) && Ascending(ids)
    ensures FreshEach([], RestoredPlan(rules, b, ids))
  {
    AscendingDistinct(ids);
    RestoredDistinct(rules, b, ids);
    FreshFromNothing(RestoredPlan(rules, b, ids));
  }

  ghost predicate Restores(rules: Rules, b: Board, edges: set<Edge>, c: Board)
    requires ValidRules(rules)
  {
    && c.beads.Keys == b.beads.Keys && c.links.Keys == edges
    && forall id :: id in b.beads ==> c.beads[id] == Bead(1, RestoredData(rules, b, id))
  }

  ghost predicate ImportsTo(rules: Rules, b: Board, edges: set<Edge>, out: Outcome<nat>)
    requires ValidRules(rules)
  {
    if Acyclic(edges) then out.reply == Ok(|SortedKeys(b.beads.Keys)|) && Restores(rules, b, edges, out.board)
    else out.reply.Err? && out.board == EMPTY_BOARD
  }

  /**
   The export of a sound board always exists. Importing it into an empty board succeeds
   exactly when the links and the recorded dependencies together have no cycle; it then
   restores every bead with the exported fields, and those links and dependencies.
   */
  lemma {:induction false} ImportOfExport(rules: Rules, b: Board)
    requires ValidRules(rules) && Sound(rules, b)
    ensures Export(rules, b).Ok?
    ensures ImportsTo(rules, b, b.links.Keys + RecordedEdges(b), Import(rules, EMPTY_BOARD, Export(rules, b).value))
  {
    var ids := SortedKeys(b.beads.Keys);
    var plan := RestoredPlan(rules, b, ids);
    ExportPlan(rules, b, ids);
    RestoredLinks(rules, b, ids);
    ImportIntoEmpty(rules, ExportFrom(rules, b, ids).value, plan, b.links.Keys + RecordedEdges(b));
    forall id | id in b.beads ensures exists p :: p in plan && p.id == id && p.data == RestoredData(rules, b, id) {
      var i :| 0 <= i < |ids| && ids[i] == id;
      assert plan[i] in plan;
    }
  }

  /** Every dependency recorded between present beads is also a link. */
  ghost predicate LinksCoverRecords(b: Board)
  {
    RecordedEdges(b) <= b.links.Keys
  }

  lemma {:induction false} ReMerge(rules: Rules, b: Board, c: Board, id: string, m: map<string, Json>)
    requires ValidRules(rules) && Followed(c) == Followed(b) && MergedAsExpected(rules, b, id, m)
    ensures MergedFields(rules, c, id, m - {"id"}) == Ok(m - {"id"})
  {
    assert DirectTargets(c, id) == DirectTargets(b, id);
    var targets := DirectDependencies(rules, b, id);
    if targets != [] {
      ListedDependencies(rules, b, id);
      var deps := m[DEPENDENCIES];
      assert (m - {"id"})[DEPENDENCIES] == deps;
      forall t | t in targets ensures Edge(id, t) in c.links && Edge(id, t) in DependencyKeys(deps.items, id) {
        assert Edge(id, t) in Followed(c);
        assert Recorded(m, id, Edge(id, t));
      }
      MergeIdempotent(c, id, deps.items, targets);
      assert (m - {"id"})[DEPENDENCIES := deps] == m - {"id"};
    }
  }

  lemma {:induction false} ReExportItem(rules: Rules, b: Board, c: Board, id: string)
    requires ValidRules(rules) && Sound(rules, b) && id in b.beads && id in c.beads && Followed(c) == Followed(b)
    requires c.beads[id].data == RestoredData(rules, b, id)
    ensures ExportItem(rules, c, id) == ExportItem(rules, b, id)
  {
    MergedIs(rules, b, id);
    var m := Merged(rules, b, id);
    ReMerge(rules, b, c, id, m);
    assert (m - {"id"})["id" := Str(id)] == m["id" := Str(id)];
  }

  lemma {:induction false} ReExportAll(rules: Rules, b: Board, c: Board, ids: seq<string>)
    requires ValidRules(rules) && Sound(rules, b) && c.beads.Keys == b.beads.Keys && c.links.Keys == b.links.Keys
    requires forall id :: id in ids ==> id in b.beads && c.beads[id].data == RestoredData(rules, b, id)
    ensures ExportFrom(rules, c, ids) == ExportFrom(rules, b, ids)
    decreases |ids|
  {
    if ids != [] {
      assert ids[0] in ids;
      assert Followed(c) == Followed(b);
      ReExportItem(rules, b, c, ids[0]);
      ReExportAll(rules, b, c, ids[1..]);
    }
  }

  /** What an outcome says when it gives back the same beads and links. */
  ghost predicate GivesBack(rules: Rules, b: Board, out: Outcome<nat>)
    requires ValidRules(rules)
  {
    && Restores(rules, b, b.links.Keys, out.board)
    && out.board.links == b.links
    && Export(rules, out.board) == Export(rules, b)
  }

  lemma {:induction false} SameLinks(rules: Rules, b: Board, c: Board)
    requires Sound(rules, b) && Sound(rules, c) && c.links.Keys == b.links.Keys
    ensures c.links == b.links
  {
    forall e | e in b.links ensures c.links[e] == b.links[e] {
      assert e in c.links;
    }
  }

  lemma {:induction false} CoveredExactly(rules: Rules, b: Board, extra: set<Edge>, out: Outcome<nat>)
    requires ValidRules(rules) && Acyclic(b.links.Keys) && ImportsTo(rules, b, b.links.Keys + extra, out)
    ensures extra <= b.links.Keys <==> out.reply.Ok? && out.board.links.Keys == b.links.Keys
    ensures extra <= b.links.Keys ==> Restores(rules, b, b.links.Keys, out.board)
  {
    assert extra <= b.links.Keys <==> b.links.Keys + extra == b.links.Keys;
  }

  lemma {:induction false} RoundTripOf(rules: Rules, b: Board, out: Outcome<nat>)
    requires ValidRules(rules) && Sound(rules, b) && Sound(rules, out.board)
    requires ImportsTo(rules, b, b.links.Keys + RecordedEdges(b), out)
    ensures LinksCoverRecords(b) <==> out.reply.Ok? && out.board.links.Keys == b.links.Keys
    ensures LinksCoverRecords(b) ==> GivesBack(rules, b, out)
  {
    CoveredExactly(rules, b, RecordedEdges(b), out);
    if LinksCoverRecords(b) {
      SameLinks(rules, b, out.board);
      ReExport(rules, b, out.board);
    }
  }

  /**
   The round trip: importing the export into an empty board succeeds and gives back the
   same beads and the same links exactly when every recorded dependency between present
   beads is a link; exporting again then gives the same value.
   */
  lemma {:induction false} RoundTrip(rules: Rules, b: Board)
    requires ValidRules(rules) && Sound(rules, b)
    ensures Export(rules, b).Ok?
    ensures var out := Import(rules, EMPTY_BOARD, Export(rules, b).value);
            && (LinksCoverRecords(b) <==> out.reply.Ok? && out.board.links.Keys == b.links.Keys)
            && (LinksCoverRecords(b) ==> GivesBack(rules, b, out))
  {
    ImportOfExport(rules, b);
    var value := Export(rules, b).value;
    EmptyBoardSound(rules);
    ImportKeepsSound(rules, EMPTY_BOARD, value);
    RoundTripOf(rules, b, Import(rules, EMPTY_BOARD, value));
  }

  lemma {:induction false} ReExport(rules: Rules, b: Board, c: Board)
    requires ValidRules(rules) && Sound(rules, b) && Restores(rules, b, b.links.Keys, c)
    ensures Export(rules, c) == Export(rules, b)
  {
    ReExportAll(rules, b, c, SortedKeys(b.beads.Keys));
  }

  /**
   The restored bead data is the stored data exactly when it holds no `id` field and
   every link of the bead is among its recorded dependencies.
   */
  lemma {:induction false} DataRestoredExactly(rules: Rules, b: Board, id: string)
    requires ValidRules(rules) && Sound(rules, b) && id in b.beads
    ensures RestoredData(rules, b, id) == b.beads[id].data <==>
            "id" !in Members(b, id) && forall e :: e in b.links && e.source == id ==> e in RecordedLinks(b.beads[id].data, id)
  {
    MergedIs(rules, b, id);
    FollowsEveryLink(rules, b);
    var m := Members(b, id);
    var merged := Merged(rules, b, id);
    assert b.beads[id].data == Obj(m);
    if RestoredData(rules, b, id) == b.beads[id].data {
      assert merged - {"id"} == m;
      assert "id" in merged ==> "id" in merged - {DEPENDENCIES};
      assert "id" in m - {DEPENDENCIES} ==> "id" in m;
      assert merged == m;
      forall e | e in b.links && e.source == id ensures e in RecordedLinks(b.beads[id].data, id) {
        assert Recorded(merged, id, e);
      }
    }
    if "id" !in m && forall e :: e in b.links && e.source == id ==> e in RecordedLinks(b.beads[id].data, id) {
      AlreadyMerged(rules, b, id);
      assert m - {"id"} == m;
    }
  }

  lemma {:induction false} AlreadyMerged(rules: Rules, b: Board, id: string)
    requires ValidRules(rules) && Sound(rules, b) && id in b.beads
    requires forall e :: e in b.links && e.source == id ==> e in RecordedLinks(b.beads[id].data, id)
    ensures Merged(rules, b, id) == Members(b, id)
  {
    var m := Members(b, id);
    var targets := DirectDependencies(rules, b, id);
    assert b.beads[id].data == Obj(m);
    if targets != [] {
      ListedDependencies(rules, b, id);
      forall t | t in targets ensures Edge(id, t) in b.links && Edge(id, t) in RecordedLinks(Obj(m), id) {
        assert Edge(id, t) in Followed(b);
      }
      assert targets[0] in targets;
      MergeIdempotent(b, id, m[DEPENDENCIES].items, targets);
      assert m[DEPENDENCIES := m[DEPENDENCIES]] == m;
    }
  }
}
