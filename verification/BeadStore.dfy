/** The bead operations on a store that they update in place. */
module BeadStore {
  import opened Prelude
  import opened Json
  import opened Digraph
  import opened Search
  import opened BeadSpec
  import opened BeadInvariants

  const QUERY_PAGE_SIZE := 1000
  const BOUNDED_DEPTH := 3

  // ---- Paged listing ----

  datatype Page = Page(ids: seq<string>, next: Option<string>)

  function Position(all: seq<string>, id: string): (n: nat)
    requires id in all
    ensures n < |all| && all[n] == id
  {
    if all[0] == id then 0 else 1 + Position(all[1..], id)
  }

  function QueryPage(all: seq<string>, after: Option<string>, limit: nat): Page
    requires after.Some? ==> after.value in all
  {
    var rest := if after.Some? then all[Position(all, after.value) + 1..] else all;
    if |rest| > limit then Page(rest[..limit], if limit > 0 then Some(rest[limit - 1]) else None)
    else Page(rest, None)
  }

  lemma {:induction false} PageAt(all: seq<string>, after: Option<string>, limit: nat, n: nat)
    requires Ascending(all) && n <= |all| && limit > 0
    requires if n == 0 then after == None else after == Some(all[n - 1])
    ensures QueryPage(all, after, limit) ==
            if n + limit < |all| then Page(all[n..n + limit], Some(all[n + limit - 1])) else Page(all[n..], None)
  {
    if n > 0 {
      var k := Position(all, after.value);
      LessIrreflexive(all[k]);
      assert k == n - 1;
    }
    var rest := all[n..];
    assert n + limit < |all| ==> rest[..limit] == all[n..n + limit];
  }

  /** Follows the page cursors to the end: every id once, in order. */
  method QueryAll(all: seq<string>) returns (ids: seq<string>)
    requires Ascending(all)
    ensures ids == all
  {
    var after: Option<string> := None;
    ids := [];
    while true
      invariant |ids| <= |all| && ids == all[..|ids|]
      invariant if ids == [] then after == None else after == Some(ids[|ids| - 1])
      decreases |all| - |ids|
    {
      PageAt(all, after, QUERY_PAGE_SIZE, |ids|);
      var page := QueryPage(all, after, QUERY_PAGE_SIZE);
      ids := ids + page.ids;
      match page.next
      case Some(cursor) => after := Some(cursor);
      case None => return;
    }
  }

  // ---- The bounded reachability query ----

  /** Whether a path of at most `depth` edges leads from `a` to `b`. */
  predicate ReachesWithin(es: set<Edge>, a: string, b: string, depth: nat)
    decreases depth
  {
    a == b || (depth > 0 && exists e :: e in es && e.source == a && ReachesWithin(es, e.target, b, depth - 1))
  }

  lemma {:induction false} WithinReaches(es: set<Edge>, a: string, b: string, depth: nat)
    requires ReachesWithin(es, a, b, depth)
    ensures Reaches(es, a, b)
    decreases depth
  {
    if a == b {
      ReachesSelf(es, a);
    } else {
      var e :| e in es && e.source == a && ReachesWithin(es, e.target, b, depth - 1);
      WithinReaches(es, e.target, b, depth - 1);
      ReachesStep(es, a, e.target, b);
    }
  }

  /** Puts a validated prefix in front of what the rest of the simulation gives. */
  function Prefixed(done: seq<Edge>, rest: Result<seq<Edge>, BeadError>): Result<seq<Edge>, BeadError>
  {
    match rest case Err(e) => Err(e) case Ok(more) => Ok(done + more)
  }

  class BeadStore {
    var beads: map<string, Bead>
    var links: map<Edge, Json>
    const rules: Rules

    ghost predicate Valid()
      reads this
    {
      ValidRules(rules) && Sound(rules, View())
    }

    function View(): Board
      reads this
    {
      Board(beads, links)
    }

    constructor (rules: Rules)
      requires ValidRules(rules)
      ensures Valid() && View() == EMPTY_BOARD && this.rules == rules
    {
      beads, links := map[], map[];
      this.rules := rules;
    }

    method CreateEntity(id: string, data: Json) returns (r: Result<Bead, BeadError>)
      requires Valid()
      modifies this
      ensures Valid() && Outcome(View(), r) == Create(rules, old(View()), id, data)
    {
      if !SchemaOk(rules, data) { return Err(SchemaViolation); }
      beads := beads[id := Bead(1, data)];
      r := Decoded(rules, beads[id]);
    }

    method CreateBead(id: string, bead: NewBead) returns (r: Result<Bead, BeadError>)
      requires Valid()
      modifies this
      ensures Valid() && Outcome(View(), r) == Create(rules, old(View()), id, NewBeadData(bead))
    {
      r := CreateEntity(id, NewBeadData(bead));
    }

    method UpdateEntity(id: string, data: Json, expected: nat) returns (r: Result<Bead, BeadError>)
      requires Valid()
      modifies this
      ensures Valid() && Outcome(View(), r) == Replace(rules, old(View()), id, data, expected)
    {
      ReplaceKeepsSound(rules, View(), id, data, expected);
      if !SchemaOk(rules, data) { return Err(SchemaViolation); }
      if id !in beads || beads[id].version != expected { return Err(VersionConflict); }
      beads := beads[id := Bead(expected + 1, data)];
      r := Decoded(rules, beads[id]);
    }

    method UpdateBead(id: string, data: Json, expected: nat) returns (r: Result<Bead, BeadError>)
      requires Valid()
      modifies this
      ensures Valid() && Outcome(View(), r) == Update(rules, old(View()), id, data, expected)
    {
      if id !in beads { return Err(NotFound); }
      var change := OrdinaryChange(beads[id].data, data);
      if change.Err? { return Err(change.error); }
      r := UpdateEntity(id, data, expected);
    }

    method TransitionBead(id: string, status: string, expected: nat) returns (r: Result<Bead, BeadError>)
      requires Valid()
      modifies this
      ensures Valid() && Outcome(View(), r) == Transition(rules, old(View()), id, status, expected)
    {
      if id !in beads { return Err(NotFound); }
      r := UpdateBead(id, WithStatus(beads[id].data, status), expected);
    }

    method ReopenBead(id: string, expected: nat) returns (r: Result<Bead, BeadError>)
      requires Valid()
      modifies this
      ensures Valid() && Outcome(View(), r) == Reopen(rules, old(View()), id, expected)
    {
      if id !in beads { return Err(NotFound); }
      match StatusOf(beads[id].data)
      case Err(e) => r := Err(e);
      case Ok(current) =>
        if current != Closed { return Err(InvalidTransition(current, Open)); }
        r := UpdateEntity(id, WithStatus(beads[id].data, StatusText(Open)), expected);
    }

    /** Path search over the stored links, with the bounded query tried first. */
    method DependencyPathExists(from: string, target: string) returns (found: bool)
      requires ValidRules(rules)
      ensures found <==> Reaches(Followed(View()), from, target)
    {
      var b := View();
      ghost var es := Followed(b);
      if from == target {
        ReachesSelf(es, from);
        return true;
      }
      if from in b.beads && ReachesWithin(Followed(b), from, target, BOUNDED_DEPTH) {
        WithinReaches(es, from, target, BOUNDED_DEPTH);
        return true;
      }
      var visited := {from};
      var queue := [from];
      StartSearch(es, from);
      while queue != []
        invariant Frontier(es, from, visited, queue, from, {}) && target !in visited
        decreases |Targets(es) + {from} - visited|, |queue|
      {
        var current := queue[0];
        var next := DirectDependencies(rules, b, current);
        ListedDependencies(rules, b, current);
        Dequeue(es, from, visited, queue, set d | d in next);
        ghost var seen := visited;
        var hit, more, added := VisitNeighbours(next, Some(target), visited, queue[1..], es, from, current);
        if hit {
          ReachesEdge(es, from, current, target);
          return true;
        }
        SearchProgress(Targets(es) + {from}, seen, added);
        visited, queue := more, queue[1..] + added;
      }
      SearchComplete(es, from, visited);
      return false;
    }

    /** The transitive dependencies of a bead: each exactly once, without the bead itself. */
    method DependencyTree(id: string) returns (r: Result<seq<string>, BeadError>)
      requires ValidRules(rules)
      ensures r.Err? <==> id !in beads
      ensures r.Err? ==> r.error == NotFound
      ensures r.Ok? ==> Distinct(r.value) && forall x :: x in r.value <==> x != id && Reaches(Followed(View()), id, x)
    {
      if id !in beads { return Err(NotFound); }
      var b := View();
      ghost var es := Followed(b);
      var visited := {id};
      var queue := [id];
      var found: seq<string> := [];
      StartSearch(es, id);
      while queue != []
        invariant Frontier(es, id, visited, queue, id, {})
        invariant Distinct(found) && forall x :: x in found <==> x in visited && x != id
        decreases |Targets(es) + {id} - visited|, |queue|
      {
        var current := queue[0];
        var next := DirectDependencies(rules, b, current);
        ListedDependencies(rules, b, current);
        Dequeue(es, id, visited, queue, set d | d in next);
        ghost var seen := visited;
        var _, more, added := VisitNeighbours(next, None, visited, queue[1..], es, id, current);
        SearchProgress(Targets(es) + {id}, seen, added);
        CollectNew(found, seen, id, added);
        visited, queue, found := more, queue[1..] + added, found + added;
      }
      SearchComplete(es, id, visited);
      r := Ok(found);
    }

    method AddDependency(x: string, y: string) returns (r: Result<(), BeadError>)
      requires Valid()
      modifies this
      ensures Valid() && Outcome(View(), r) == BeadSpec.AddDependency(old(View()), x, y)
    {
      AddDependencyKeepsSound(rules, View(), x, y);
      if x !in beads { return Err(NotFound); }
      if y !in beads { return Err(NotFound); }
      if x == y { return Err(Circular); }
      var circular := DependencyPathExists(y, x);
      if circular { return Err(Circular); }
      if Edge(x, y) in links { return Err(AlreadyExists); }
      links := links[Edge(x, y) := BLOCKS];
      r := Ok(());
    }

    /** The open beads whose dependencies are all closed, in id order. */
    method ReadyQueue() returns (r: Result<seq<string>, BeadError>)
      requires ValidRules(rules)
      ensures r.Err? <==> exists id :: IsOpen(View(), id) && !rules.decodes(beads[id].data)
      ensures r.Err? ==> r.error == StorageFault
      ensures r.Ok? ==> Ascending(r.value) && forall id :: id in r.value <==> IsReady(View(), id)
    {
      var b := View();
      var open := QueryAll(SortedKeys(OpenIds(b)));
      if exists id :: id in open && !rules.decodes(b.beads[id].data) { return Err(StorageFault); }
      var output := SelectReady(rules, b, open);
      r := Ok(output);
    }

    // ---- Export ----

    method ExportBeads() returns (r: Result<Json, BeadError>)
      requires ValidRules(rules)
      ensures r == Export(rules, View())
    {
      var b := View();
      var ids := QueryAll(SortedKeys(b.beads.Keys));
      var values := ExportAll(rules, b, ids);
      r := match values case Err(e) => Err(e) case Ok(items) => Ok(Arr(items));
    }

    // ---- Import ----

    method BuildImportPlan(items: seq<Json>) returns (r: Result<seq<Planned>, BeadError>)
      ensures r == PlanFrom(rules, beads.Keys, [], items)
    {
      var existing := beads.Keys;
      var plan: seq<Planned> := [];
      for i := 0 to |items|
        invariant PlanFrom(rules, existing, plan, items[i..]) == PlanFrom(rules, existing, [], items)
      {
        assert items[i..][1..] == items[i + 1..];
        var longer := PlanItem(rules, existing, plan, items[i]);
        if longer.Err? { return Err(longer.error); }
        plan := longer.value;
      }
      r := Ok(plan);
    }

    method ExistingGraph() returns (graph: Adjacency)
      requires Valid()
      ensures EdgesOf(graph) == Followed(View())
    {
      var b := View();
      graph := AdjacencyOf(rules, b);
      WholeGraph(rules, b, graph);
    }

    method ValidateImportLinks(plan: seq<Planned>) returns (r: Result<seq<Edge>, BeadError>)
      requires Valid()
      ensures r == Simulate(AllLinks(plan), TargetIds(View(), plan), Followed(View()))
    {
      var ids := beads.Keys + PlannedIds(plan);
      var graph := ExistingGraph();
      r := SimulateOn(AllLinks(plan), ids, graph);
    }

    /** The link phase: every accepted link can be added, and all of them are. */
    method AddImportLinks(accepted: seq<Edge>, ghost all: seq<Edge>) returns (r: Result<(), BeadError>)
      requires Valid() && Simulate(all, beads.Keys, links.Keys) == Ok(accepted)
      modifies this
      ensures Valid() && r == Ok(()) && View() == Linked(old(View()), accepted)
    {
      ghost var b := View();
      assert b.links == WithLinks(b.links, EdgesIn(accepted[..0]));
      for i := 0 to |accepted|
        invariant Valid() && View() == Linked(b, accepted[..i])
      {
        LinkPhaseStep(rules, b, all, accepted, i);
        var added := AddDependency(accepted[i].source, accepted[i].target);
        match added
        case Ok(_) =>
        case Err(e) => if e != AlreadyExists { return Err(e); }
      }
      assert accepted[..|accepted|] == accepted;
      r := Ok(());
    }

    method CreatePlanned(plan: seq<Planned>) returns (r: Result<(), BeadError>)
      requires Valid() && PlanOk(rules, beads.Keys, plan)
      modifies this
      ensures Valid() && View() == WithPlanned(old(View()), plan)
      ensures r.Ok?
    {
      ghost var b := View();
      assert b.beads == b.beads + PlannedBeads(plan[..0]);
      for i := 0 to |plan|
        invariant Valid() && View() == WithPlanned(b, plan[..i])
      {
        CreatePhaseStep(rules, b, plan, i);
        var created := CreateEntity(plan[i].id, plan[i].data);
      }
      assert plan[..|plan|] == plan;
      r := Ok(());
    }

    method ImportBeads(data: Json) returns (r: Result<nat, BeadError>)
      requires Valid()
      modifies this
      ensures Valid() && Outcome(View(), r) == Import(rules, old(View()), data)
    {
      if !data.Arr? { return Err(InvalidArgument); }
      var plan := BuildImportPlan(data.items);
      if plan.Err? { return Err(plan.error); }
      var accepted := ValidateImportLinks(plan.value);
      if accepted.Err? { return Err(accepted.error); }
      FollowsEveryLink(rules, View());
      PlansAreOk(rules, beads.Keys, [], data.items);
      PlannedBeadsAt(rules, beads.Keys, plan.value);
      var created := CreatePlanned(plan.value);
      assert beads.Keys == old(beads).Keys + PlannedIds(plan.value);
      var linked := AddImportLinks(accepted.value, AllLinks(plan.value));
      r := Ok(|plan.value|);
    }
  }

  lemma {:induction false} AppendKeys(deps: seq<Json>, dep: Json, id: string)
    ensures DependencyKeys(deps + [dep], id) ==
            DependencyKeys(deps, id) + (match DependencyKey(dep, id) case Some(e) => [e] case None => [])
    decreases |deps|
  {
    if deps == [] {
      assert deps + [dep] == [dep];
    } else {
      assert (deps + [dep])[1..] == deps[1..] + [dep];
      AppendKeys(deps[1..], dep, id);
    }
  }

  lemma {:induction false} ObjectKey(metadata: Json, e: Edge, fallback: string)
    ensures DependencyKey(DependencyObject(metadata, e), fallback) == Some(e)
  {
  }

  /** Adds the stored links of a bead to its dependency objects, skipping those already seen. */
  method MergeTypedDependencies(b: Board, id: string, dependencies: seq<Json>, targets: seq<string>) returns (merged: seq<Json>)
    requires forall t :: t in targets ==> Edge(id, t) in b.links
    ensures merged == MergeLinks(b, id, dependencies, targets)
  {
    merged := dependencies;
    var seen := set e | e in DependencyKeys(dependencies, id);
    for i := 0 to |targets|
      invariant MergeLinks(b, id, merged, targets[i..]) == MergeLinks(b, id, dependencies, targets)
      invariant seen == set e | e in DependencyKeys(merged, id)
    {
      var e := Edge(id, targets[i]);
      assert targets[i..][1..] == targets[i + 1..] && targets[i..][0] == targets[i];
      assert targets[i] in targets;
      if e !in seen {
        AppendKeys(merged, DependencyObject(b.links[e], e), id);
        ObjectKey(b.links[e], e, id);
        seen := seen + {e};
        merged := merged + [DependencyObject(b.links[e], e)];
      }
    }
  }

  method ExportOne(rules: Rules, b: Board, id: string) returns (r: Result<Json, BeadError>)
    requires ValidRules(rules) && id in b.beads
    ensures r == ExportItem(rules, b, id)
  {
    if !b.beads[id].data.Obj? { return Err(StorageFault); }
    var obj := b.beads[id].data.members;
    var targets := DirectDependencies(rules, b, id);
    ListedDependencies(rules, b, id);
    if targets != [] {
      var deps := if DEPENDENCIES in obj then obj[DEPENDENCIES] else Arr([]);
      if !deps.Arr? { return Err(StorageFault); }
      var merged := MergeTypedDependencies(b, id, deps.items, targets);
      obj := obj[DEPENDENCIES := Arr(merged)];
    }
    r := Ok(Obj(obj["id" := Str(id)]));
  }

  function Joined(done: seq<Json>, rest: Result<seq<Json>, BeadError>): Result<seq<Json>, BeadError>
  {
    match rest case Err(e) => Err(e) case Ok(more) => Ok(done + more)
  }

  lemma {:induction false} JoinedStep(done: seq<Json>, item: Json, rest: Result<seq<Json>, BeadError>)
    ensures Joined(done, Joined([item], rest)) == Joined(done + [item], rest)
    ensures Joined([], rest) == rest
  {
    if rest.Ok? {
      assert done + ([item] + rest.value) == (done + [item]) + rest.value;
      assert [] + rest.value == rest.value;
    }
  }

  method ExportAll(rules: Rules, b: Board, ids: seq<string>) returns (r: Result<seq<Json>, BeadError>)
    requires ValidRules(rules) && forall id :: id in ids ==> id in b.beads
    ensures r == ExportFrom(rules, b, ids)
  {
    var values: seq<Json> := [];
    ghost var whole := ExportFrom(rules, b, ids);
    assert ids[0..] == ids;
    JoinedStep([], Null, whole);
    for i := 0 to |ids|
      invariant whole == Joined(values, ExportFrom(rules, b, ids[i..]))
    {
      assert ids[i..][1..] == ids[i + 1..] && ids[i] in ids;
      var item := ExportOne(rules, b, ids[i]);
      if item.Err? { return Err(item.error); }
      JoinedStep(values, item.value, ExportFrom(rules, b, ids[i + 1..]));
      values := values + [item.value];
    }
    assert values + [] == values;
    r := Ok(values);
  }

  lemma {:induction false} CollectNew(found: seq<string>, seen: set<string>, id: string, added: seq<string>)
    requires Distinct(found) && id in seen && forall x :: x in found <==> x in seen && x != id
    requires Distinct(added) && forall d :: d in added ==> d !in seen
    ensures Distinct(found + added)
    ensures forall x :: x in found + added <==> x in seen + (set d | d in added) && x != id
  {
    var all := found + added;
    forall i, j | 0 <= i < j < |all| ensures all[i] != all[j] {
      assert i < |found| ==> found[i] in found;
      assert j >= |found| ==> added[j - |found|] in added;
    }
  }

  method SelectReady(rules: Rules, b: Board, open: seq<string>) returns (output: seq<string>)
    requires ValidRules(rules) && Ascending(open) && forall id :: id in open ==> IsOpen(b, id)
    ensures Ascending(output) && forall id :: id in output <==> id in open && IsReady(b, id)
  {
    output := [];
    for i := 0 to |open|
      invariant Ascending(output)
      invariant forall id :: id in output <==> id in open[..i] && IsReady(b, id)
    {
      assert open[..i + 1] == open[..i] + [open[i]];
      assert open[i] in open;
      ReadyByList(rules, b, open[i]);
      if forall d :: d in DirectDependencies(rules, b, open[i]) ==> IsClosed(b, d) {
        AppendAscending(output, open, i);
        output := output + [open[i]];
      }
    }
    assert open[..|open|] == open;
  }

  method AdjacencyOf(rules: Rules, b: Board) returns (graph: Adjacency)
    requires ValidRules(rules)
    ensures graph.Keys == b.beads.Keys && forall id :: id in graph ==> graph[id] == DirectTargets(b, id)
  {
    graph := map[];
    var todo := b.beads.Keys;
    while todo != {}
      invariant todo <= b.beads.Keys && graph.Keys == b.beads.Keys - todo
      invariant forall id :: id in graph ==> graph[id] == DirectTargets(b, id)
      decreases |todo|
    {
      var id :| id in todo;
      ListedDependencies(rules, b, id);
      graph := graph[id := set d | d in DirectDependencies(rules, b, id)];
      todo := todo - {id};
    }
  }

  lemma {:induction false} ListedDependencies(rules: Rules, b: Board, id: string)
    requires ValidRules(rules)
    ensures (set d | d in DirectDependencies(rules, b, id)) == DirectTargets(b, id)
    ensures forall d :: d in DirectDependencies(rules, b, id) <==> Edge(id, d) in Followed(b)
  {
    assert Lists(rules.linkOrder(DirectTargets(b, id)), DirectTargets(b, id));
    forall d | Edge(id, d) in Followed(b) ensures d in DirectTargets(b, id) {
      assert Edge(id, d).target == d;
    }
  }

  lemma {:induction false} ReadyByList(rules: Rules, b: Board, id: string)
    requires ValidRules(rules) && IsOpen(b, id)
    ensures IsReady(b, id) <==> forall d :: d in DirectDependencies(rules, b, id) ==> IsClosed(b, d)
  {
    ListedDependencies(rules, b, id);
    if IsReady(b, id) {
      forall d | d in DirectDependencies(rules, b, id) ensures IsClosed(b, d) {
        assert Edge(id, d).source == id;
      }
    }
  }

  lemma {:induction false} WholeGraph(rules: Rules, b: Board, graph: Adjacency)
    requires Sound(rules, b) && graph.Keys == b.beads.Keys
    requires forall id :: id in graph ==> graph[id] == DirectTargets(b, id)
    ensures EdgesOf(graph) == Followed(b)
  {
    forall e: Edge ensures e in EdgesOf(graph) <==> e in Followed(b) {
      if e in Followed(b) { assert e.target in DirectTargets(b, e.source); }
    }
  }

  method SimulateOn(links: seq<Edge>, ids: set<string>, existing: Adjacency) returns (r: Result<seq<Edge>, BeadError>)
    ensures r == Simulate(links, ids, EdgesOf(existing))
  {
    var graph := existing;
    var materialized: seq<Edge> := [];
    ghost var whole := Simulate(links, ids, EdgesOf(graph));
    assert links[0..] == links;
    PrefixedNone(whole);
    for i := 0 to |links|
      invariant whole == Prefixed(materialized, Simulate(links[i..], ids, EdgesOf(graph)))
    {
      var e := links[i];
      assert links[i..][1..] == links[i + 1..] && links[i..][0] == e;
      if Within(e, ids) {
        if e.source == e.target { return Err(Circular); }
        var circular := GraphPathExists(graph, e.target, e.source);
        if circular { return Err(Circular); }
        ghost var es := EdgesOf(graph);
        graph := graph[e.source := (if e.source in graph then graph[e.source] else {}) + {e.target}];
        assert EdgesOf(graph) == es + {e};
        PrefixedStep(materialized, e, Simulate(links[i + 1..], ids, EdgesOf(graph)));
        materialized := materialized + [e];
      }
    }
    assert materialized + [] == materialized;
    r := Ok(materialized);
  }

  lemma {:induction false} PrefixedNone(rest: Result<seq<Edge>, BeadError>)
    ensures Prefixed([], rest) == rest
  {
    if rest.Ok? { assert [] + rest.value == rest.value; }
  }

  lemma {:induction false} AppendAscending(output: seq<string>, open: seq<string>, i: nat)
    requires Ascending(output) && Ascending(open) && i < |open| && forall id :: id in output ==> id in open[..i]
    ensures Ascending(output + [open[i]])
  {
    forall k | 0 <= k < |output| ensures Less(output[k], open[i]) {
      assert output[k] in output;
      var j :| 0 <= j < i && open[j] == output[k];
    }
  }

  lemma {:induction false} PrefixedStep(done: seq<Edge>, e: Edge, rest: Result<seq<Edge>, BeadError>)
    ensures Prefixed(done, Prefixed([e], rest)) == Prefixed(done + [e], rest)
  {
    if rest.Ok? { assert done + ([e] + rest.value) == (done + [e]) + rest.value; }
  }
}
