/** Beads (work items), their status lifecycle, and the pure meaning of each bead operation. */
module BeadSpec {
  import opened Prelude
  import opened Json
  import opened Digraph
  import opened Search

  datatype Status = Proposed | Open | InProgress | Blocked | Closed | Cancelled

  function StatusText(s: Status): string
  {
    match s
    case Proposed => "proposed"
    case Open => "open"
    case InProgress => "in_progress"
    case Blocked => "blocked"
    case Closed => "closed"
    case Cancelled => "cancelled"
  }

  function ParseStatus(t: string): (r: Option<Status>)
    ensures r.Some? ==> StatusText(r.value) == t
  {
    match t
    case "proposed" => Some(Proposed)
    case "open" => Some(Open)
    case "in_progress" => Some(InProgress)
    case "blocked" => Some(Blocked)
    case "closed" => Some(Closed)
    case "cancelled" => Some(Cancelled)
    case _ => None
  }

  /** The lifecycle table: the states an ordinary update may move to. */
  function NextStatuses(s: Status): seq<Status>
  {
    match s
    case Proposed => [Open, Blocked, Cancelled]
    case Open => [InProgress, Blocked, Closed, Cancelled]
    case InProgress => [Open, Blocked, Closed, Cancelled]
    case Blocked => [Open, Cancelled]
    case Closed => []
    case Cancelled => []
  }

  datatype Bead = Bead(version: nat, data: Json)

  /** The bead collection: entities by id, and dependency links with their metadata. */
  datatype Board = Board(beads: map<string, Bead>, links: map<Edge, Json>)

  const EMPTY_BOARD := Board(map[], map[])

  /**
   What the operations take from elsewhere: the order in which the store lists the
   links of one bead, the schema of the fields other than `status`, `dependencies`
   and the undeclared `id`, and whether stored fields decode into a bead record.
   */
  datatype Rules = Rules(
    linkOrder: set<string> -> seq<string>,
    otherFields: map<string, Json> -> bool,
    decodes: Json -> bool)

  ghost predicate Lists(s: seq<string>, members: set<string>)
  {
    Distinct(s) && forall x :: x in s <==> x in members
  }

  ghost predicate ValidRules(rules: Rules)
  {
    forall s :: Lists(rules.linkOrder(s), s)
  }

  datatype BeadError =
    | NotFound
    | AlreadyExists
    | Circular
    | InvalidArgument
    | SchemaViolation
    | StatusMissing
    | StatusInvalid
    | InvalidTransition(current: Status, target: Status)
    | VersionConflict
    | StorageFault

  datatype Outcome<T> = Outcome(board: Board, reply: Result<T, BeadError>)

  const STATUS := "status"
  const DEPENDENCIES := "dependencies"
  const BLOCKS := Obj(map["type" := Str("blocks")])

  function FieldOf(data: Json, name: string): Option<Json>
  {
    if data.Obj? && name in data.members then Some(data.members[name]) else None
  }

  function TextField(data: Json, name: string): Option<string>
  {
    match FieldOf(data, name)
    case Some(Str(s)) => Some(s)
    case _ => None
  }

  function StatusOf(data: Json): Result<Status, BeadError>
  {
    match FieldOf(data, STATUS)
    case None => Err(StatusMissing)
    case Some(Str(s)) => (match ParseStatus(s) case Some(x) => Ok(x) case None => Err(StatusInvalid))
    case Some(_) => Err(StatusInvalid)
  }

  predicate HasStatus(data: Json, s: Status)
  {
    StatusOf(data) == Ok(s)
  }

  function WithStatus(data: Json, status: string): Json
  {
    if data.Obj? then Obj(data.members[STATUS := Str(status)]) else Obj(map[STATUS := Str(status)])
  }

  predicate OptionalText(m: map<string, Json>, name: string)
  {
    name in m ==> m[name].Str?
  }

  predicate DependencyOk(dep: Json)
  {
    && dep.Obj? && "depends_on_id" in dep.members && dep.members["depends_on_id"].Str?
    && OptionalText(dep.members, "issue_id")
    && OptionalText(dep.members, "type")
    && OptionalText(dep.members, "created_at")
  }

  predicate DependenciesOk(deps: Json)
  {
    deps.Arr? && forall i :: 0 <= i < |deps.items| ==> DependencyOk(deps.items[i])
  }

  /** The bead schema. */
  predicate SchemaOk(rules: Rules, data: Json)
  {
    && data.Obj?
    && StatusOf(data).Ok?
    && (DEPENDENCIES in data.members ==> DependenciesOk(data.members[DEPENDENCIES]))
    && rules.otherFields(data.members - {STATUS, DEPENDENCIES, "id"})
  }

  datatype NewBead = NewBead(beadType: string, title: string, description: Option<string>, priority: nat,
                             assignee: Option<string>, tags: seq<string>, acceptance: Option<string>)

  function WithText(m: map<string, Json>, name: string, value: Option<string>): map<string, Json>
  {
    if value.Some? then m[name := Str(value.value)] else m
  }

  function NewBeadData(p: NewBead): Json
  {
    var m := map[
      "issue_type" := Str(p.beadType),
      STATUS := Str(StatusText(Open)),
      "title" := Str(p.title),
      "priority" := Num(Integer(p.priority)),
      "labels" := Arr(seq(|p.tags|, i requires 0 <= i < |p.tags| => Str(p.tags[i])))];
    Obj(WithText(WithText(WithText(m, "description", p.description), "assignee", p.assignee), "acceptance", p.acceptance))
  }

  function Decoded(rules: Rules, bead: Bead): Result<Bead, BeadError>
  {
    if rules.decodes(bead.data) then Ok(bead) else Err(StorageFault)
  }

  /** Creating stores version 1, over whatever the id held before. */
  function Create(rules: Rules, b: Board, id: string, data: Json): Outcome<Bead>
  {
    if !SchemaOk(rules, data) then Outcome(b, Err(SchemaViolation))
    else Outcome(b.(beads := b.beads[id := Bead(1, data)]), Decoded(rules, Bead(1, data)))
  }

  /** The governed update: schema check, then compare-and-swap on the version. */
  function Replace(rules: Rules, b: Board, id: string, data: Json, expected: nat): Outcome<Bead>
  {
    if !SchemaOk(rules, data) then Outcome(b, Err(SchemaViolation))
    else if id !in b.beads || b.beads[id].version != expected then Outcome(b, Err(VersionConflict))
    else Outcome(b.(beads := b.beads[id := Bead(expected + 1, data)]), Decoded(rules, Bead(expected + 1, data)))
  }

  function OrdinaryChange(current: Json, target: Json): Result<(), BeadError>
  {
    match StatusOf(current)
    case Err(e) => Err(e)
    case Ok(from) =>
      match StatusOf(target)
      case Err(e) => Err(e)
      case Ok(to) => if from == to || to in NextStatuses(from) then Ok(()) else Err(InvalidTransition(from, to))
  }

  function Update(rules: Rules, b: Board, id: string, data: Json, expected: nat): Outcome<Bead>
  {
    if id !in b.beads then Outcome(b, Err(NotFound))
    else match OrdinaryChange(b.beads[id].data, data)
      case Err(e) => Outcome(b, Err(e))
      case Ok(_) => Replace(rules, b, id, data, expected)
  }

  function Transition(rules: Rules, b: Board, id: string, status: string, expected: nat): Outcome<Bead>
  {
    if id !in b.beads then Outcome(b, Err(NotFound))
    else Update(rules, b, id, WithStatus(b.beads[id].data, status), expected)
  }

  function Reopen(rules: Rules, b: Board, id: string, expected: nat): Outcome<Bead>
  {
    if id !in b.beads then Outcome(b, Err(NotFound))
    else match StatusOf(b.beads[id].data)
      case Err(e) => Outcome(b, Err(e))
      case Ok(s) =>
        if s != Closed then Outcome(b, Err(InvalidTransition(s, Open)))
        else Replace(rules, b, id, WithStatus(b.beads[id].data, StatusText(Open)), expected)
  }

  /** The links a traversal follows: to present beads other than the source itself. */
  function Followed(b: Board): set<Edge>
  {
    set e | e in b.links && e.target in b.beads && e.target != e.source
  }

  function DirectTargets(b: Board, id: string): set<string>
  {
    set e | e in Followed(b) && e.source == id :: e.target
  }

  function DirectDependencies(rules: Rules, b: Board, id: string): seq<string>
  {
    rules.linkOrder(DirectTargets(b, id))
  }

  /** Bead `x` is to depend on bead `y`. */
  ghost function AddDependency(b: Board, x: string, y: string): Outcome<()>
  {
    if x !in b.beads || y !in b.beads then Outcome(b, Err(NotFound))
    else if x == y || Reaches(Followed(b), y, x) then Outcome(b, Err(Circular))
    else if Edge(x, y) in b.links then Outcome(b, Err(AlreadyExists))
    else Outcome(b.(links := b.links[Edge(x, y) := BLOCKS]), Ok(()))
  }

  // ---- Import ----

  datatype Planned = Planned(id: string, data: Json, links: seq<Edge>)

  /** The edge a dependency object stands for; its source defaults to the enclosing bead. */
  function DependencyKey(dep: Json, fallback: string): Option<Edge>
  {
    match TextField(dep, "depends_on_id")
    case None => None
    case Some(target) =>
      Some(Edge(match TextField(dep, "issue_id") case Some(s) => s case None => fallback, target))
  }

  function DependencyKeys(deps: seq<Json>, fallback: string): seq<Edge>
  {
    if deps == [] then []
    else
      var rest := DependencyKeys(deps[1..], fallback);
      match DependencyKey(deps[0], fallback) case Some(e) => [e] + rest case None => rest
  }

  function RecordedLinks(data: Json, id: string): seq<Edge>
  {
    match FieldOf(data, DEPENDENCIES)
    case Some(Arr(deps)) => DependencyKeys(deps, id)
    case _ => []
  }

  function PlannedIds(plan: seq<Planned>): set<string>
  {
    set p | p in plan :: p.id
  }

  function WithoutId(item: Json): Json
  {
    if item.Obj? then Obj(item.members - {"id"}) else item
  }

  /** Extends a plan with one item: skipped when its bead exists already. */
  function PlanItem(rules: Rules, existing: set<string>, plan: seq<Planned>, item: Json): Result<seq<Planned>, BeadError>
  {
    match TextField(item, "id")
    case None => Err(InvalidArgument)
    case Some(id) =>
      if id in existing then Ok(plan)
      else if id in PlannedIds(plan) then Err(AlreadyExists)
      else if !SchemaOk(rules, WithoutId(item)) then Err(SchemaViolation)
      else Ok(plan + [Planned(id, WithoutId(item), RecordedLinks(item, id))])
  }

  function PlanFrom(rules: Rules, existing: set<string>, plan: seq<Planned>, items: seq<Json>): Result<seq<Planned>, BeadError>
    decreases |items|
  {
    if items == [] then Ok(plan)
    else match PlanItem(rules, existing, plan, items[0])
      case Err(e) => Err(e)
      case Ok(longer) => PlanFrom(rules, existing, longer, items[1..])
  }

  function AllLinks(plan: seq<Planned>): seq<Edge>
  {
    if plan == [] then [] else plan[0].links + AllLinks(plan[1..])
  }

  predicate Within(e: Edge, ids: set<string>)
  {
    e.source in ids && e.target in ids
  }

  /** Simulates the links on a graph, refusing the first that would close a cycle. */
  ghost function Simulate(links: seq<Edge>, ids: set<string>, es: set<Edge>): Result<seq<Edge>, BeadError>
  {
    if links == [] then Ok([])
    else if !Within(links[0], ids) then Simulate(links[1..], ids, es)
    else if links[0].source == links[0].target || Reaches(es, links[0].target, links[0].source) then Err(Circular)
    else match Simulate(links[1..], ids, es + {links[0]})
      case Err(e) => Err(e)
      case Ok(rest) => Ok([links[0]] + rest)
  }

  function PlannedBeads(plan: seq<Planned>): map<string, Bead>
  {
    if plan == [] then map[]
    else PlannedBeads(plan[..|plan| - 1])[plan[|plan| - 1].id := Bead(1, plan[|plan| - 1].data)]
  }

  function EdgesIn(links: seq<Edge>): set<Edge>
  {
    set e | e in links
  }

  function WithLinks(links: map<Edge, Json>, more: set<Edge>): map<Edge, Json>
  {
    map e | e in links.Keys + more :: if e in links then links[e] else BLOCKS
  }

  ghost function Import(rules: Rules, b: Board, data: Json): Outcome<nat>
  {
    if !data.Arr? then Outcome(b, Err(InvalidArgument))
    else match PlanFrom(rules, b.beads.Keys, [], data.items)
      case Err(e) => Outcome(b, Err(e))
      case Ok(plan) =>
        match Simulate(AllLinks(plan), b.beads.Keys + PlannedIds(plan), Followed(b))
        case Err(e) => Outcome(b, Err(e))
        case Ok(links) =>
          Outcome(Board(b.beads + PlannedBeads(plan), WithLinks(b.links, EdgesIn(links))), Ok(|plan|))
  }

  // ---- Export ----

  function DependencyObject(metadata: Json, e: Edge): Json
  {
    var base := if metadata.Obj? then metadata.members else map[];
    var named := base["issue_id" := Str(e.source)]["depends_on_id" := Str(e.target)];
    Obj(if "type" in named then named else named["type" := Str("blocks")])
  }

  /** Appends an object for every listed link that no dependency object stands for yet. */
  function MergeLinks(b: Board, id: string, deps: seq<Json>, targets: seq<string>): seq<Json>
    requires forall t :: t in targets ==> Edge(id, t) in b.links
    decreases |targets|
  {
    if targets == [] then deps
    else
      var e := Edge(id, targets[0]);
      var longer := if e in DependencyKeys(deps, id) then deps else deps + [DependencyObject(b.links[e], e)];
      MergeLinks(b, id, longer, targets[1..])
  }

  function MergedFields(rules: Rules, b: Board, id: string, m: map<string, Json>): Result<map<string, Json>, BeadError>
    requires Lists(DirectDependencies(rules, b, id), DirectTargets(b, id))
  {
    var targets := DirectDependencies(rules, b, id);
    if targets == [] then Ok(m)
    else
      var deps := if DEPENDENCIES in m then m[DEPENDENCIES] else Arr([]);
      if !deps.Arr? then Err(StorageFault)
      else Ok(m[DEPENDENCIES := Arr(MergeLinks(b, id, deps.items, targets))])
  }

  function ExportItem(rules: Rules, b: Board, id: string): Result<Json, BeadError>
    requires ValidRules(rules) && id in b.beads
  {
    if !b.beads[id].data.Obj? then Err(StorageFault)
    else match MergedFields(rules, b, id, b.beads[id].data.members)
      case Err(e) => Err(e)
      case Ok(m) => Ok(Obj(m["id" := Str(id)]))
  }

  function ExportFrom(rules: Rules, b: Board, ids: seq<string>): Result<seq<Json>, BeadError>
    requires ValidRules(rules)
    requires forall id :: id in ids ==> id in b.beads
  {
    if ids == [] then Ok([])
    else match ExportItem(rules, b, ids[0])
      case Err(e) => Err(e)
      case Ok(item) =>
        match ExportFrom(rules, b, ids[1..])
        case Err(e) => Err(e)
        case Ok(items) => Ok([item] + items)
  }

  function Export(rules: Rules, b: Board): Result<Json, BeadError>
    requires ValidRules(rules)
  {
    match ExportFrom(rules, b, SortedKeys(b.beads.Keys))
    case Err(e) => Err(e)
    case Ok(items) => Ok(Arr(items))
  }

  // ---- Ready queue ----

  predicate IsOpen(b: Board, id: string)
  {
    id in b.beads && HasStatus(b.beads[id].data, Open)
  }

  predicate IsClosed(b: Board, id: string)
  {
    id in b.beads && HasStatus(b.beads[id].data, Closed)
  }

  function OpenIds(b: Board): set<string>
  {
    set id | id in b.beads && IsOpen(b, id)
  }

  /** An open bead all of whose dependencies are closed. */
  predicate IsReady(b: Board, id: string)
  {
    IsOpen(b, id) && forall e :: e in Followed(b) && e.source == id ==> IsClosed(b, e.target)
  }
}
