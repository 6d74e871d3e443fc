/** What every bead operation keeps, over all runs: valid data, present endpoints, no cycles. */
module BeadInvariants {
  import opened Prelude
  import opened Json
  import opened Digraph
  import opened BeadSpec

  ghost predicate Sound(rules: Rules, b: Board)
  {
    && (forall id :: id in b.beads ==> SchemaOk(rules, b.beads[id].data))
    && (forall e :: e in b.links ==> Within(e, b.beads.Keys) && b.links[e] == BLOCKS)
    && Acyclic(b.links.Keys)
  }

  /** On a sound board a traversal follows every link. */
  lemma {:induction false} FollowsEveryLink(rules: Rules, b: Board)
    requires Sound(rules, b)
    ensures Followed(b) == b.links.Keys
  {
    forall e | e in b.links ensures e in Followed(b) {
      ReachesSelf(b.links.Keys, e.target);
    }
  }

  lemma {:induction false} ReplaceKeepsSound(rules: Rules, b: Board, id: string, data: Json, expected: nat)
    requires Sound(rules, b)
    ensures Sound(rules, Replace(rules, b, id, data, expected).board)
  {
  }

  lemma {:induction false} AddDependencyKeepsSound(rules: Rules, b: Board, x: string, y: string)
    requires Sound(rules, b)
    ensures Sound(rules, AddDependency(b, x, y).board)
  {
    FollowsEveryLink(rules, b);
    var after := AddDependency(b, x, y).board;
    if after != b {
      AddableExactly(b.links.Keys, Edge(x, y));
      assert after.links.Keys == b.links.Keys + {Edge(x, y)};
    }
  }

  /** A new dependency between present beads is refused as circular exactly when it would close a cycle. */
  lemma {:induction false} CircularExactly(rules: Rules, b: Board, x: string, y: string)
    requires Sound(rules, b) && x in b.beads && y in b.beads
    ensures AddDependency(b, x, y).reply == Err(Circular) <==> !Acyclic(b.links.Keys + {Edge(x, y)})
  {
    FollowsEveryLink(rules, b);
    AddableExactly(b.links.Keys, Edge(x, y));
    if x == y { ReachesSelf(b.links.Keys, x); }
  }

  function Relevant(links: seq<Edge>, ids: set<string>): set<Edge>
  {
    set e | e in links && Within(e, ids)
  }

  lemma {:induction false} RelevantStep(links: seq<Edge>, ids: set<string>)
    requires links != []
    ensures Relevant(links, ids) == Relevant(links[1..], ids) + (if Within(links[0], ids) then {links[0]} else {})
  {
    assert links == [links[0]] + links[1..];
  }

  /** The simulated links are accepted exactly when adding all of them leaves no cycle. */
  lemma {:induction false} SimulateExact(links: seq<Edge>, ids: set<string>, es: set<Edge>)
    requires Acyclic(es)
    ensures Simulate(links, ids, es).Ok? <==> Acyclic(es + Relevant(links, ids))
    ensures Simulate(links, ids, es).Ok? ==> EdgesIn(Simulate(links, ids, es).value) == Relevant(links, ids)
    decreases |links|
  {
    if links == [] {
      assert es + Relevant(links, ids) == es;
    } else {
      RelevantStep(links, ids);
      var e := links[0];
      if !Within(e, ids) {
        assert Relevant(links, ids) == Relevant(links[1..], ids);
        SimulateExact(links[1..], ids, es);
      } else {
        AddableExactly(es, e);
        if e.source == e.target { ReachesSelf(es, e.source); }
        assert es + Relevant(links, ids) == (es + {e}) + Relevant(links[1..], ids);
        if Reaches(es, e.target, e.source) {
          if Acyclic(es + Relevant(links, ids)) { AcyclicMonotone(es + {e}, es + Relevant(links, ids)); }
        } else {
          SimulateExact(links[1..], ids, es + {e});
        }
      }
    }
  }

  /** Each accepted link is safe to add after the ones accepted before it. */
  lemma {:induction false} SimulatedSafe(links: seq<Edge>, ids: set<string>, es: set<Edge>, i: nat)
    requires Simulate(links, ids, es).Ok? && i < |Simulate(links, ids, es).value|
    ensures var m := Simulate(links, ids, es).value;
            && Within(m[i], ids) && m[i].source != m[i].target
            && !Reaches(es + EdgesIn(m[..i]), m[i].target, m[i].source)
    decreases |links|
  {
    var m := Simulate(links, ids, es).value;
    if !Within(links[0], ids) {
      SimulatedSafe(links[1..], ids, es, i);
    } else {
      var rest := Simulate(links[1..], ids, es + {links[0]}).value;
      assert m == [links[0]] + rest;
      if i == 0 {
        assert es + EdgesIn(m[..0]) == es;
      } else {
        SimulatedSafe(links[1..], ids, es + {links[0]}, i - 1);
        assert m[..i] == [links[0]] + rest[..i - 1];
        assert es + EdgesIn(m[..i]) == (es + {links[0]}) + EdgesIn(rest[..i - 1]);
      }
    }
  }

  ghost predicate PlanOk(rules: Rules, existing: set<string>, plan: seq<Planned>)
  {
    && (forall i :: 0 <= i < |plan| ==> plan[i].id !in existing && SchemaOk(rules, plan[i].data))
    && (forall i, j :: 0 <= i < j < |plan| ==> plan[i].id != plan[j].id)
  }

  lemma {:induction false} PlanItemKeepsOk(rules: Rules, existing: set<string>, plan: seq<Planned>, item: Json)
    requires PlanOk(rules, existing, plan) && PlanItem(rules, existing, plan, item).Ok?
    ensures PlanOk(rules, existing, PlanItem(rules, existing, plan, item).value)
  {
    var longer := PlanItem(rules, existing, plan, item).value;
    if longer != plan {
      var p := longer[|plan|];
      forall i | 0 <= i < |plan| ensures plan[i].id != p.id {
        assert plan[i] in plan && plan[i].id in PlannedIds(plan);
      }
    }
  }

  lemma {:induction false} PlansAreOk(rules: Rules, existing: set<string>, plan: seq<Planned>, items: seq<Json>)
    requires PlanOk(rules, existing, plan) && PlanFrom(rules, existing, plan, items).Ok?
    ensures PlanOk(rules, existing, PlanFrom(rules, existing, plan, items).value)
    decreases |items|
  {
    if items != [] {
      PlanItemKeepsOk(rules, existing, plan, items[0]);
      PlansAreOk(rules, existing, PlanItem(rules, existing, plan, items[0]).value, items[1..]);
    }
  }

  lemma {:induction false} PlannedKeys(plan: seq<Planned>)
    ensures PlannedBeads(plan).Keys == PlannedIds(plan)
    decreases |plan|
  {
    if plan != [] {
      var front := plan[..|plan| - 1];
      PlannedKeys(front);
      assert plan == front + [plan[|plan| - 1]];
      assert PlannedIds(plan) == PlannedIds(front) + {plan[|plan| - 1].id};
    }
  }

  lemma {:induction false} PlannedBeadAt(plan: seq<Planned>, i: nat)
    requires i < |plan| && forall k, j :: 0 <= k < j < |plan| ==> plan[k].id != plan[j].id
    ensures plan[i].id in PlannedBeads(plan) && PlannedBeads(plan)[plan[i].id] == Bead(1, plan[i].data)
    decreases |plan|
  {
    if i < |plan| - 1 {
      assert plan[..|plan| - 1][i] == plan[i];
      PlannedBeadAt(plan[..|plan| - 1], i);
    }
  }

  lemma {:induction false} PlannedBeadsAt(rules: Rules, existing: set<string>, plan: seq<Planned>)
    requires PlanOk(rules, existing, plan)
    ensures PlannedBeads(plan).Keys == PlannedIds(plan) && PlannedIds(plan) !! existing
    ensures forall p :: p in plan ==> p.id in PlannedBeads(plan) && PlannedBeads(plan)[p.id] == Bead(1, p.data)
    ensures forall id :: id in PlannedBeads(plan) ==> SchemaOk(rules, PlannedBeads(plan)[id].data)
  {
    PlannedKeys(plan);
    forall p | p in plan
      ensures p.id !in existing && p.id in PlannedBeads(plan) && PlannedBeads(plan)[p.id] == Bead(1, p.data)
      ensures SchemaOk(rules, p.data)
    {
      var i :| 0 <= i < |plan| && plan[i] == p;
      PlannedBeadAt(plan, i);
    }
    forall id | id in PlannedBeads(plan) ensures SchemaOk(rules, PlannedBeads(plan)[id].data) {
      var p :| p in plan && p.id == id;
    }
  }

  function TargetIds(b: Board, plan: seq<Planned>): set<string>
  {
    b.beads.Keys + PlannedIds(plan)
  }

  /**
   An import whose items are well formed succeeds exactly when the old links and the
   planned ones together have no cycle; it then adds exactly those, and the planned
   beads, and touches no existing bead.
   */
  lemma {:induction false} ImportExact(rules: Rules, b: Board, data: Json)
    requires Sound(rules, b) && data.Arr? && PlanFrom(rules, b.beads.Keys, [], data.items).Ok?
    ensures var plan := PlanFrom(rules, b.beads.Keys, [], data.items).value;
            var edges := b.links.Keys + Relevant(AllLinks(plan), TargetIds(b, plan));
            var out := Import(rules, b, data);
            && (out.reply.Ok? <==> Acyclic(edges))
            && (out.reply.Err? ==> out.board == b)
            && (out.reply.Ok? ==>
                  && out.reply.value == |plan|
                  && out.board.links.Keys == edges
                  && out.board.beads.Keys == TargetIds(b, plan)
                  && (forall id :: id in b.beads ==> out.board.beads[id] == b.beads[id])
                  && (forall p :: p in plan ==> out.board.beads[p.id] == Bead(1, p.data)))
  {
    var plan := PlanFrom(rules, b.beads.Keys, [], data.items).value;
    var out := Import(rules, b, data);
    FollowsEveryLink(rules, b);
    SimulateExact(AllLinks(plan), TargetIds(b, plan), b.links.Keys);
    PlansAreOk(rules, b.beads.Keys, [], data.items);
    PlannedBeadsAt(rules, b.beads.Keys, plan);
  }

  lemma {:induction false} ImportKeepsSound(rules: Rules, b: Board, data: Json)
    requires Sound(rules, b)
    ensures Sound(rules, Import(rules, b, data).board)
    ensures Import(rules, b, data).reply.Err? ==> Import(rules, b, data).board == b
  {
    if Import(rules, b, data).reply.Ok? {
      var plan := PlanFrom(rules, b.beads.Keys, [], data.items).value;
      ImportExact(rules, b, data);
      PlansAreOk(rules, b.beads.Keys, [], data.items);
      PlannedBeadsAt(rules, b.beads.Keys, plan);
    }
  }

  /** The board after the first accepted links have been added. */
  function Linked(b: Board, accepted: seq<Edge>): Board
  {
    b.(links := WithLinks(b.links, EdgesIn(accepted)))
  }

  lemma {:induction false} LinkedStep(b: Board, accepted: seq<Edge>, i: nat)
    requires i < |accepted|
    ensures var now := Linked(b, accepted[..i]);
            && now.beads == b.beads && now.links.Keys == b.links.Keys + EdgesIn(accepted[..i])
            && Linked(b, accepted[..i + 1]) ==
               (if accepted[i] in now.links then now else now.(links := now.links[accepted[i] := BLOCKS]))
  {
    assert accepted[..i + 1] == accepted[..i] + [accepted[i]];
    assert EdgesIn(accepted[..i + 1]) == EdgesIn(accepted[..i]) + {accepted[i]};
    var now := Linked(b, accepted[..i]);
    assert Linked(b, accepted[..i + 1]).links ==
           if accepted[i] in now.links then now.links else now.links[accepted[i] := BLOCKS];
  }

  /** The link phase follows the simulation: no accepted link is refused for a missing bead or a cycle. */
  lemma {:induction false} LinkPhaseStep(rules: Rules, b: Board, all: seq<Edge>, accepted: seq<Edge>, i: nat)
    requires Simulate(all, b.beads.Keys, b.links.Keys) == Ok(accepted) && i < |accepted|
    requires Sound(rules, Linked(b, accepted[..i]))
    ensures var out := AddDependency(Linked(b, accepted[..i]), accepted[i].source, accepted[i].target);
            && (out.reply == Ok(()) || out.reply == Err(AlreadyExists))
            && out.board == Linked(b, accepted[..i + 1])
  {
    SimulatedSafe(all, b.beads.Keys, b.links.Keys, i);
    FollowsEveryLink(rules, Linked(b, accepted[..i]));
    LinkedStep(b, accepted, i);
    assert Edge(accepted[i].source, accepted[i].target) == accepted[i];
  }

  function WithPlanned(b: Board, plan: seq<Planned>): Board
  {
    b.(beads := b.beads + PlannedBeads(plan))
  }

  lemma {:induction false} CreatePhaseStep(rules: Rules, b: Board, plan: seq<Planned>, i: nat)
    requires i < |plan| && SchemaOk(rules, plan[i].data)
    ensures Create(rules, WithPlanned(b, plan[..i]), plan[i].id, plan[i].data).board == WithPlanned(b, plan[..i + 1])
  {
    assert plan[..i + 1][..i] == plan[..i];
  }

  // ---- Runs ----

  datatype Act =
    | CreateAct(id: string, bead: NewBead)
    | TransitionAct(id: string, status: string, expected: nat)
    | UpdateAct(id: string, payload: Json, expected: nat)
    | ReopenAct(id: string, expected: nat)
    | DependAct(id: string, on: string)
    | ImportAct(payload: Json)

  ghost function After(rules: Rules, b: Board, a: Act): Board
  {
    match a
    case CreateAct(id, bead) => Create(rules, b, id, NewBeadData(bead)).board
    case TransitionAct(id, status, expected) => Transition(rules, b, id, status, expected).board
    case UpdateAct(id, payload, expected) => Update(rules, b, id, payload, expected).board
    case ReopenAct(id, expected) => Reopen(rules, b, id, expected).board
    case DependAct(id, on) => AddDependency(b, id, on).board
    case ImportAct(payload) => Import(rules, b, payload).board
  }

  ghost function RunOf(rules: Rules, acts: seq<Act>): Board
  {
    if acts == [] then EMPTY_BOARD else After(rules, RunOf(rules, acts[..|acts| - 1]), acts[|acts| - 1])
  }

  lemma {:induction false} ActKeepsSound(rules: Rules, b: Board, a: Act)
    requires Sound(rules, b)
    ensures Sound(rules, After(rules, b, a))
  {
    match a
    case CreateAct(id, bead) =>
    case TransitionAct(id, status, expected) =>
      if id in b.beads { ReplaceKeepsSound(rules, b, id, WithStatus(b.beads[id].data, status), expected); }
    case UpdateAct(id, payload, expected) => ReplaceKeepsSound(rules, b, id, payload, expected);
    case ReopenAct(id, expected) =>
      if id in b.beads { ReplaceKeepsSound(rules, b, id, WithStatus(b.beads[id].data, StatusText(Open)), expected); }
    case DependAct(id, on) => AddDependencyKeepsSound(rules, b, id, on);
    case ImportAct(payload) => ImportKeepsSound(rules, b, payload);
  }

  /** Over every run the dependency graph is acyclic and both ends of every link exist. */
  lemma {:induction false} RunsStaySound(rules: Rules, acts: seq<Act>)
    ensures Sound(rules, RunOf(rules, acts))
    decreases |acts|
  {
    if acts != [] {
      RunsStaySound(rules, acts[..|acts| - 1]);
      ActKeepsSound(rules, RunOf(rules, acts[..|acts| - 1]), acts[|acts| - 1]);
    }
  }

  // ---- Lifecycle over single acts ----

  /** A bead of this status is left only by creating over it, or by reopening when it is closed. */
  predicate Leaves(a: Act, id: string, s: Status)
  {
    (a.CreateAct? && a.id == id) || (s == Closed && a.ReopenAct? && a.id == id)
  }

  lemma {:induction false} NewBeadsAreOpen(bead: NewBead)
    ensures HasStatus(NewBeadData(bead), Open)
  {
  }

  lemma {:induction false} CreateStartsOver(rules: Rules, b: Board, other: string, data: Json, id: string)
    requires id in b.beads
    ensures id in Create(rules, b, other, data).board.beads
    ensures var after := Create(rules, b, other, data).board.beads[id].data;
            after == b.beads[id].data || (other == id && after == data)
  {
  }

  lemma {:induction false} ImportSkipsExisting(rules: Rules, b: Board, data: Json, id: string)
    requires Sound(rules, b) && id in b.beads
    ensures id in Import(rules, b, data).board.beads && Import(rules, b, data).board.beads[id] == b.beads[id]
  {
    if Import(rules, b, data).reply.Ok? { ImportExact(rules, b, data); }
  }

  lemma {:induction false} UpdateKeepsTerminal(rules: Rules, b: Board, other: string, data: Json, expected: nat, id: string, s: Status)
    requires id in b.beads && HasStatus(b.beads[id].data, s) && s in {Closed, Cancelled}
    ensures id in Update(rules, b, other, data, expected).board.beads
    ensures HasStatus(Update(rules, b, other, data, expected).board.beads[id].data, s)
  {
  }

  lemma {:induction false} ReopenFromClosedOnly(rules: Rules, b: Board, other: string, expected: nat, id: string, s: Status)
    requires id in b.beads && HasStatus(b.beads[id].data, s)
    ensures id in Reopen(rules, b, other, expected).board.beads
    ensures var after := Reopen(rules, b, other, expected).board.beads[id].data;
            HasStatus(after, s) || (other == id && s == Closed && HasStatus(after, Open))
  {
  }

  /**
   Closed and cancelled beads keep their status under every act, except that a closed
   one may be reopened and that creating an existing id starts it over as open.
   */
  lemma {:induction false} TerminalStays(rules: Rules, b: Board, a: Act, id: string, s: Status)
    requires Sound(rules, b) && id in b.beads && HasStatus(b.beads[id].data, s) && s in {Closed, Cancelled}
    ensures id in After(rules, b, a).beads
    ensures HasStatus(After(rules, b, a).beads[id].data, s) ||
            (Leaves(a, id, s) && HasStatus(After(rules, b, a).beads[id].data, Open))
  {
    match a
    case CreateAct(other, bead) =>
      NewBeadsAreOpen(bead);
      CreateStartsOver(rules, b, other, NewBeadData(bead), id);
    case TransitionAct(other, status, expected) =>
      if other in b.beads {
        UpdateKeepsTerminal(rules, b, other, WithStatus(b.beads[other].data, status), expected, id, s);
      }
    case UpdateAct(other, payload, expected) => UpdateKeepsTerminal(rules, b, other, payload, expected, id, s);
    case ReopenAct(other, expected) => ReopenFromClosedOnly(rules, b, other, expected, id, s);
    case DependAct(_, _) =>
    case ImportAct(payload) => ImportSkipsExisting(rules, b, payload, id);
  }

  /** Creating over a cancelled bead reopens it: the table's terminal states do not bind creation. */
  lemma {:induction false} CreateRevivesCancelled(rules: Rules, b: Board, id: string, bead: NewBead)
    requires id in b.beads && HasStatus(b.beads[id].data, Cancelled) && SchemaOk(rules, NewBeadData(bead))
    ensures var after := After(rules, b, CreateAct(id, bead));
            HasStatus(after.beads[id].data, Open) && after.beads[id].version == 1
  {
    NewBeadsAreOpen(bead);
  }

  // ---- Errors after the write ----

  /** The call reports an error although it changed the board. */
  predicate ErrsAfterWriting<T(==)>(b: Board, out: Outcome<T>)
  {
    out.reply.Err? && out.board != b
  }

  /** The governed update would go through: schema and version fit. */
  predicate Writable(rules: Rules, b: Board, id: string, data: Json, expected: nat)
  {
    SchemaOk(rules, data) && id in b.beads && b.beads[id].version == expected
  }

  lemma {:induction false} ReplaceErrsAfterWriting(rules: Rules, b: Board, id: string, data: Json, expected: nat)
    ensures ErrsAfterWriting(b, Replace(rules, b, id, data, expected)) <==>
            Writable(rules, b, id, data, expected) && !rules.decodes(data)
  {
    if Writable(rules, b, id, data, expected) {
      assert Replace(rules, b, id, data, expected).board.beads[id].version != b.beads[id].version;
    }
  }

  /**
   A failed update leaves the board alone, except exactly when the change was allowed and
   written and the new payload does not decode.
   */
  lemma {:induction false} UpdateErrsAfterWriting(rules: Rules, b: Board, id: string, data: Json, expected: nat)
    ensures ErrsAfterWriting(b, Update(rules, b, id, data, expected)) <==>
            && Writable(rules, b, id, data, expected) && OrdinaryChange(b.beads[id].data, data).Ok?
            && !rules.decodes(data)
  {
    ReplaceErrsAfterWriting(rules, b, id, data, expected);
  }

  lemma {:induction false} TransitionErrsAfterWriting(rules: Rules, b: Board, id: string, status: string, expected: nat)
    ensures ErrsAfterWriting(b, Transition(rules, b, id, status, expected)) <==>
            && id in b.beads
            && var data := WithStatus(b.beads[id].data, status);
               Writable(rules, b, id, data, expected) && OrdinaryChange(b.beads[id].data, data).Ok? && !rules.decodes(data)
  {
    if id in b.beads { UpdateErrsAfterWriting(rules, b, id, WithStatus(b.beads[id].data, status), expected); }
  }

  lemma {:induction false} ReopenErrsAfterWriting(rules: Rules, b: Board, id: string, expected: nat)
    ensures ErrsAfterWriting(b, Reopen(rules, b, id, expected)) <==>
            && id in b.beads && HasStatus(b.beads[id].data, Closed)
            && var data := WithStatus(b.beads[id].data, StatusText(Open));
               Writable(rules, b, id, data, expected) && !rules.decodes(data)
  {
    if id in b.beads { ReplaceErrsAfterWriting(rules, b, id, WithStatus(b.beads[id].data, StatusText(Open)), expected); }
  }

  const PLAIN := Obj(map[STATUS := Str("open"), "title" := Str("t")])
  const TAGGED := Obj(map[STATUS := Str("open"), "title" := Str("t"), "tags" := Bool(true)])

  /** Rules whose decoder wants `tags`, a field the schema does not declare, to be an array. */
  const TAG_RULES := Rules(SortedKeys, (m: map<string, Json>) => true,
                           (d: Json) => match FieldOf(d, "tags") case Some(v) => v.Arr? case None => true)

  /** Witness: the schema accepts the payload, the update is stored, and the caller gets an error. */
  lemma {:induction false} UpdateWritesAndErrs()
    ensures var b := Board(map["a" := Bead(1, PLAIN)], map[]);
            var out := Update(TAG_RULES, b, "a", TAGGED, 1);
            out.reply == Err(StorageFault) && out.board.beads == map["a" := Bead(2, TAGGED)]
  {
    assert StatusOf(PLAIN) == Ok(Open) && StatusOf(TAGGED) == Ok(Open);
    assert DEPENDENCIES !in TAGGED.members && TAGGED.members["tags"] == Bool(true);
    assert FieldOf(TAGGED, "tags") == Some(Bool(true));
  }
}
