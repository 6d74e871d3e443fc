/**
 Interleaved transactions against one store.

 A program decides its next action from everything it has read; each read records
 the version it saw, and the writes are a function of the reads.
 */
module Serializability {
  import opened Prelude
  import opened Audit
  import opened Store
  import opened TxSpec
  import opened Versions

  datatype Observation = Observation(key: Key, row: Option<Entity>)

  datatype Action = Read(key: Key) | Finish(ops: seq<StagedOp>)

  type Program = seq<Observation> -> Action

  datatype Sys = Sys(programs: nat -> Program, ids: nat -> string, isolation: Isolation, env: Env)

  datatype Event = ReadEvent(t: nat) | CommitEvent(t: nat)

  datatype World = World(db: Db, seen: map<nat, seq<Observation>>, done: set<nat>, committed: seq<nat>)

  function Seen(w: World, t: nat): seq<Observation>
  {
    if t in w.seen then w.seen[t] else []
  }

  function Observed(row: Option<Entity>): nat
  {
    if row.Some? then row.value.version else 0
  }

  function ReadRefs(obs: seq<Observation>): (r: seq<ReadRef>)
    ensures |r| == |obs|
    ensures forall i :: 0 <= i < |obs| ==> r[i] == ReadRef(obs[i].key, Observed(obs[i].row))
  {
    if obs == [] then [] else [ReadRef(obs[0].key, Observed(obs[0].row))] + ReadRefs(obs[1..])
  }

  /** The transaction a finished program commits. */
  function TxOf(s: Sys, t: nat, obs: seq<Observation>, ops: seq<StagedOp>): Tx
  {
    Tx(s.ids(t), ops, ReadRefs(obs), [], s.isolation)
  }

  function Attempt(s: Sys, t: nat, obs: seq<Observation>, ops: seq<StagedOp>, db: Db): Outcome<()>
  {
    Commit(s.env, db, TxOf(s, t, obs, ops), Context(s.ids(t), None, None, None), NoHook)
  }

  function Step(s: Sys, w: World, e: Event): World
  {
    if e.t in w.done then w
    else
      var obs := Seen(w, e.t);
      match (e, s.programs(e.t)(obs))
      case (ReadEvent(t), Read(k)) =>
        w.(seen := w.seen[t := obs + [Observation(k, Get(w.db, k))]])
      case (CommitEvent(t), Finish(ops)) =>
        var out := Attempt(s, t, obs, ops, w.db);
        World(out.db, w.seen[t := obs], w.done + {t},
              if out.result.Ok? then w.committed + [t] else w.committed)
      case _ => w
  }

  function Run(s: Sys, db: Db, events: seq<Event>): World
    decreases |events|
  {
    if events == [] then World(db, map[], {}, [])
    else Step(s, Run(s, db, events[..|events| - 1]), events[|events| - 1])
  }

  function StateAt(s: Sys, db: Db, events: seq<Event>, i: nat): Db
    requires i <= |events|
  {
    Run(s, db, events[..i]).db
  }

  lemma {:induction false} RunStep(s: Sys, db: Db, events: seq<Event>, i: nat)
    requires i < |events|
    ensures Run(s, db, events[..i + 1]) == Step(s, Run(s, db, events[..i]), events[i])
  {
    assert events[..i + 1][..i] == events[..i];
  }

  // ---------------------------------------------------------------------------
  // The serial reference: one program at a time
  // ---------------------------------------------------------------------------

  /** Run alone on `db`, the program reads exactly `obs` and then finishes. */
  predicate Alone(program: Program, db: Db, obs: seq<Observation>)
  {
    && program(obs).Finish?
    && forall i :: 0 <= i < |obs| ==> program(obs[..i]) == Read(obs[i].key) && obs[i].row == Get(db, obs[i].key)
  }

  /** A program alone on a store has one possible sequence of reads. */
  lemma {:induction false} AloneDetermined(program: Program, db: Db, a: seq<Observation>, b: seq<Observation>)
    requires Alone(program, db, a) && Alone(program, db, b)
    ensures a == b
  {
    AlonePrefix(program, db, a, b, 0);
  }

  lemma {:induction false} AlonePrefix(program: Program, db: Db, a: seq<Observation>, b: seq<Observation>, i: nat)
    requires Alone(program, db, a) && Alone(program, db, b)
    requires i <= |a| && i <= |b| && a[..i] == b[..i]
    ensures a == b
    decreases |a| - i
  {
    assert i < |a| ==> program(a[..i]).Read?;
    assert i < |b| ==> program(b[..i]).Read?;
    assert a[..|a|] == a && b[..|b|] == b;
    if i < |a| && i < |b| {
      assert a[i] == b[i];
      assert a[..i + 1] == a[..i] + [a[i]] && b[..i + 1] == b[..i] + [b[i]];
      AlonePrefix(program, db, a, b, i + 1);
    }
  }

  /** Running the programs `order` one after another, with the given reads. */
  function Serial(s: Sys, db: Db, order: seq<nat>, seen: map<nat, seq<Observation>>): Db
    decreases |order|
  {
    if order == [] then db
    else
      var before, t := Serial(s, db, order[..|order| - 1], seen), order[|order| - 1];
      var obs := if t in seen then seen[t] else [];
      if s.programs(t)(obs).Finish? then Attempt(s, t, obs, s.programs(t)(obs).ops, before).db else before
  }

  /** Each program, run alone after its predecessors, reads what it read and commits. */
  ghost predicate SerialReads(s: Sys, db: Db, order: seq<nat>, seen: map<nat, seq<Observation>>)
  {
    forall i :: 0 <= i < |order| ==>
      var t := order[i];
      var before := Serial(s, db, order[..i], seen);
      && t in seen && Alone(s.programs(t), before, seen[t])
      && Attempt(s, t, seen[t], s.programs(t)(seen[t]).ops, before).result.Ok?
  }

  /** The committed programs in commit order explain both the reads and the final store. */
  ghost predicate SerialEquivalent(s: Sys, db: Db, w: World)
  {
    SerialReads(s, db, w.committed, w.seen) && Serial(s, db, w.committed, w.seen) == w.db
  }

  // ---------------------------------------------------------------------------
  // The theorem
  // ---------------------------------------------------------------------------

  /** Equal versions at two points of the run mean equal contents. */
  ghost predicate Identify(s: Sys, db: Db, events: seq<Event>, i: nat, j: nat, k: Key)
    requires i <= |events| && j <= |events|
  {
    VersionOf(StateAt(s, db, events, i), k) == VersionOf(StateAt(s, db, events, j), k) ==>
      Get(StateAt(s, db, events, i), k) == Get(StateAt(s, db, events, j), k)
  }

  /** Along the run a version of a row always stands for the same contents. */
  ghost predicate VersionsIdentify(s: Sys, db: Db, events: seq<Event>)
  {
    forall i, j, k :: 0 <= i <= |events| && 0 <= j <= |events| ==> Identify(s, db, events, i, j, k)
  }

  lemma {:induction false} IdentifyPrefix(s: Sys, db: Db, events: seq<Event>, n: nat)
    requires n <= |events| && VersionsIdentify(s, db, events)
    ensures VersionsIdentify(s, db, events[..n])
  {
    forall i, j, k | 0 <= i <= n && 0 <= j <= n ensures Identify(s, db, events[..n], i, j, k) {
      assert events[..n][..i] == events[..i] && events[..n][..j] == events[..j];
      assert Identify(s, db, events, i, j, k);
    }
  }

  /** Every read in progress follows its program and came from some state of the run. */
  ghost predicate Honest(s: Sys, db: Db, events: seq<Event>, t: nat)
  {
    var obs := Seen(Run(s, db, events), t);
    forall i :: 0 <= i < |obs| ==>
      && s.programs(t)(obs[..i]) == Read(obs[i].key)
      && exists n :: 0 <= n <= |events| && obs[i].row == Get(StateAt(s, db, events, n), obs[i].key)
  }

  lemma {:induction false} HonestAlways(s: Sys, db: Db, events: seq<Event>, t: nat)
    ensures Honest(s, db, events, t)
    decreases |events|
  {
    if events != [] {
      var m := |events| - 1;
      var before := events[..m];
      HonestAlways(s, db, before, t);
      var w, w' := Run(s, db, before), Run(s, db, events);
      var old_, obs := Seen(w, t), Seen(w', t);
      assert obs == old_ || (|obs| == |old_| + 1 && obs[..|old_|] == old_);
      forall i | 0 <= i < |obs|
        ensures s.programs(t)(obs[..i]) == Read(obs[i].key)
        ensures exists n :: 0 <= n <= |events| && obs[i].row == Get(StateAt(s, db, events, n), obs[i].key)
      {
        assert obs[..i] == old_[..i];
        if i < |old_| {
          var n :| 0 <= n <= |before| && old_[i].row == Get(StateAt(s, db, before, n), old_[i].key);
          assert before[..n] == events[..n];
          assert obs[i].row == Get(StateAt(s, db, events, n), obs[i].key);
        } else {
          assert obs[i].row == Get(StateAt(s, db, events, m), obs[i].key);
        }
      }
    }
  }

  lemma {:induction false} ReadsHold(db: Db, reads_: seq<ReadRef>, i: nat, j: nat)
    requires i <= j < |reads_| && CheckReads(db, reads_, i) == None
    ensures VersionOf(db, reads_[j].key) == reads_[j].observed
    decreases j - i
  {
    if i < j { ReadsHold(db, reads_, i + 1, j); }
  }

  /** Reads that still hold at commit make the program's view the current store. */
  lemma {:induction false} ValidatedReadsAreCurrent(s: Sys, db: Db, events: seq<Event>, t: nat, ops: seq<StagedOp>)
    requires IsSerializable(s.isolation) && VersionsIdentify(s, db, events)
    requires var w := Run(s, db, events);
             s.programs(t)(Seen(w, t)) == Finish(ops) && Attempt(s, t, Seen(w, t), ops, w.db).result.Ok?
    ensures Alone(s.programs(t), Run(s, db, events).db, Seen(Run(s, db, events), t))
  {
    var w := Run(s, db, events);
    var obs := Seen(w, t);
    HonestAlways(s, db, events, t);
    assert events[..|events|] == events;
    forall i | 0 <= i < |obs|
      ensures s.programs(t)(obs[..i]) == Read(obs[i].key) && obs[i].row == Get(w.db, obs[i].key)
    {
      ReadsHold(w.db, ReadRefs(obs), 0, i);
      var n :| 0 <= n <= |events| && obs[i].row == Get(StateAt(s, db, events, n), obs[i].key);
      var k := obs[i].key;
      assert Identify(s, db, events, n, |events|, k);
    }
  }

  /** Replay depends only on what the replayed programs saw. */
  lemma {:induction false} SerialSame(s: Sys, db: Db, order: seq<nat>,
                                     a: map<nat, seq<Observation>>, b: map<nat, seq<Observation>>)
    requires forall i :: 0 <= i < |order| ==> order[i] in a && order[i] in b && a[order[i]] == b[order[i]]
    ensures Serial(s, db, order, a) == Serial(s, db, order, b)
    decreases |order|
  {
    if order != [] { SerialSame(s, db, order[..|order| - 1], a, b); }
  }

  lemma {:induction false} SerialReadsSame(s: Sys, db: Db, order: seq<nat>,
                                          a: map<nat, seq<Observation>>, b: map<nat, seq<Observation>>)
    requires forall i :: 0 <= i < |order| ==> order[i] in a && order[i] in b && a[order[i]] == b[order[i]]
    requires SerialReads(s, db, order, a)
    ensures SerialReads(s, db, order, b)
  {
    forall i | 0 <= i < |order| ensures Serial(s, db, order[..i], a) == Serial(s, db, order[..i], b) {
      SerialSame(s, db, order[..i], a, b);
    }
  }

  lemma {:induction false} SerialExtend(s: Sys, db: Db, order: seq<nat>, seen: map<nat, seq<Observation>>, t: nat)
    requires SerialReads(s, db, order, seen)
    requires t in seen && Alone(s.programs(t), Serial(s, db, order, seen), seen[t])
    requires Attempt(s, t, seen[t], s.programs(t)(seen[t]).ops, Serial(s, db, order, seen)).result.Ok?
    ensures SerialReads(s, db, order + [t], seen)
    ensures Serial(s, db, order + [t], seen) ==
            Attempt(s, t, seen[t], s.programs(t)(seen[t]).ops, Serial(s, db, order, seen)).db
  {
    assert (order + [t])[..|order|] == order;
    forall i | 0 <= i < |order| ensures (order + [t])[..i] == order[..i] {}
  }

  /** Committed programs are done and their reads are frozen. */
  predicate CommittedFrozen(w: World)
  {
    forall i :: 0 <= i < |w.committed| ==> w.committed[i] in w.done && w.committed[i] in w.seen
  }

  lemma {:induction false} AlwaysFrozen(s: Sys, db: Db, events: seq<Event>)
    ensures CommittedFrozen(Run(s, db, events))
    decreases |events|
  {
    if events != [] { AlwaysFrozen(s, db, events[..|events| - 1]); }
  }

  /**
   Serializability: whatever the interleaving, the committed programs replayed alone
   in commit order make the same reads and leave the same store.
   */
  lemma {:induction false} Serializable(s: Sys, db: Db, events: seq<Event>)
    requires IsSerializable(s.isolation) && VersionsIdentify(s, db, events)
    ensures SerialEquivalent(s, db, Run(s, db, events))
    decreases |events|
  {
    if events != [] {
      var before, e := events[..|events| - 1], events[|events| - 1];
      IdentifyPrefix(s, db, events, |events| - 1);
      Serializable(s, db, before);
      AlwaysFrozen(s, db, before);
      SerializableStep(s, db, before, e);
    }
  }

  lemma {:induction false} SerializableStep(s: Sys, db: Db, before: seq<Event>, e: Event)
    requires IsSerializable(s.isolation) && VersionsIdentify(s, db, before)
    requires var w := Run(s, db, before); CommittedFrozen(w) && SerialEquivalent(s, db, w)
    ensures SerialEquivalent(s, db, Step(s, Run(s, db, before), e))
  {
    var w := Run(s, db, before);
    var w' := Step(s, w, e);
    if e.t !in w.done {
      var obs := Seen(w, e.t);
      forall i | 0 <= i < |w.committed|
        ensures w.committed[i] in w'.seen && w'.seen[w.committed[i]] == w.seen[w.committed[i]]
      {
        assert w.committed[i] != e.t;
      }
      SerialSame(s, db, w.committed, w.seen, w'.seen);
      SerialReadsSame(s, db, w.committed, w.seen, w'.seen);
      if w'.committed != w.committed {
        var ops := s.programs(e.t)(obs).ops;
        ValidatedReadsAreCurrent(s, db, before, e.t, ops);
        SerialExtend(s, db, w.committed, w'.seen, e.t);
      }
    }
  }

  // ---------------------------------------------------------------------------
  // When versions identify contents: no row is re-created at a version already used
  // ---------------------------------------------------------------------------

  predicate Creates(op: StagedOp, k: Key, v: nat)
  {
    match op
    case EntityOp(w) => w.mutation == EntityCreate && w.entity.key == k && w.entity.version == v
    case LinkCreateOp(l) => (ForwardKey(l.ident) == k || ReverseKey(l.ident) == k) && v == 1
    case LinkDeleteOp(_) => false
  }

  /** Every creation among `ops` is above the version the row has in `db`. */
  ghost predicate CreatesAbove(ops: seq<StagedOp>, db: Db)
  {
    forall i, k, v: nat :: 0 <= i < |ops| && Creates(ops[i], k, v) ==> v > VersionOf(db, k)
  }

  /** The row at `k` is as before, gone, one update further, or freshly created. */
  ghost predicate NetEffect(ops: seq<StagedOp>, db: Db, after: Db, k: Key)
  {
    || Get(after, k) == Get(db, k)
    || k !in after.rows
    || (k in db.rows && k in after.rows && after.rows[k].version == db.rows[k].version + 1)
    || (k in after.rows && exists i :: 0 <= i < |ops| && Creates(ops[i], k, after.rows[k].version))
  }

  lemma {:induction false} ApplyOpNet(env: Env, db: Db, p: Progress, ops: seq<StagedOp>, i: nat, ctx: Context, k: Key)
    requires i < |ops| && CreatesAbove(ops, db) && CheckOp(env, db, ops[i]) == None
    requires NetEffect(ops, db, p.db, k) && ApplyOp(p, ops[i], ctx).Ok?
    ensures NetEffect(ops, db, ApplyOp(p, ops[i], ctx).value.db, k)
  {
    match ops[i]
    case EntityOp(w) =>
      if w.entity.key == k && w.mutation == EntityCreate {
        assert Creates(ops[i], k, w.entity.version);
      }
    case LinkCreateOp(l) =>
      PutLinkGet(p.db, l, k);
      if ForwardKey(l.ident) == k || ReverseKey(l.ident) == k {
        assert Creates(ops[i], k, 1);
      }
    case LinkDeleteOp(l) => RemoveLinkGet(p.db, l.ident, k);
  }

  lemma {:induction false} PutLinkGet(db: Db, l: Link, k: Key)
    ensures var r := PutLink(db, l);
            if ForwardKey(l.ident) == k || ReverseKey(l.ident) == k
            then k in r.rows && r.rows[k].version == 1
            else Get(r, k) == Get(db, k)
  {
  }

  lemma {:induction false} RemoveLinkGet(db: Db, l: LinkIdent, k: Key)
    ensures var r := RemoveLink(db, l); k !in r.rows || Get(r, k) == Get(db, k)
  {
  }

  lemma {:induction false} ApplyNet(env: Env, db: Db, p: Progress, ops: seq<StagedOp>, i: nat, ctx: Context, k: Key)
    requires i <= |ops| && CreatesAbove(ops, db) && CheckFrom(env, db, ops, i) == None
    requires NetEffect(ops, db, p.db, k) && ApplyFrom(p, ops, i, ctx).Ok?
    ensures NetEffect(ops, db, ApplyFrom(p, ops, i, ctx).value.db, k)
    decreases |ops| - i
  {
    if i < |ops| {
      ApplyOpNet(env, db, p, ops, i, ctx, k);
      ApplyNet(env, db, ApplyOp(p, ops[i], ctx).value, ops, i + 1, ctx, k);
    }
  }

  lemma {:induction false} AttemptNet(s: Sys, t: nat, obs: seq<Observation>, ops: seq<StagedOp>, db: Db, k: Key)
    requires CreatesAbove(ops, db)
    ensures NetEffect(ops, db, Attempt(s, t, obs, ops, db).db, k)
  {
    var ctx := Context(s.ids(t), None, None, None);
    if Execute(s.env, db, TxOf(s, t, obs, ops), ctx).Ok? {
      ApplyNet(s.env, db, Progress(db, [], []), ops, 0, ctx, k);
    }
  }

  /** What the event commits: nothing when the transaction is refused. */
  function CommittedOps(s: Sys, w: World, e: Event): seq<StagedOp>
  {
    if e.CommitEvent? && e.t !in w.done && s.programs(e.t)(Seen(w, e.t)).Finish? &&
       Attempt(s, e.t, Seen(w, e.t), s.programs(e.t)(Seen(w, e.t)).ops, w.db).result.Ok?
    then s.programs(e.t)(Seen(w, e.t)).ops else []
  }

  /** Every creation is above every version the row has had in the run so far. */
  ghost predicate FreshCreates(s: Sys, db: Db, events: seq<Event>)
  {
    forall n, i :: 0 <= i <= n < |events| ==>
      CreatesAbove(CommittedOps(s, Run(s, db, events[..n]), events[n]), StateAt(s, db, events, i))
  }

  lemma {:induction false} StepNet(s: Sys, w: World, e: Event, k: Key)
    requires CreatesAbove(CommittedOps(s, w, e), w.db)
    ensures NetEffect(CommittedOps(s, w, e), w.db, Step(s, w, e).db, k)
  {
    var ops := CommittedOps(s, w, e);
    if e.CommitEvent? && e.t !in w.done && s.programs(e.t)(Seen(w, e.t)).Finish? {
      AttemptNet(s, e.t, Seen(w, e.t), ops, w.db, k);
    }
  }

  predicate PositiveAt(db: Db, k: Key)
  {
    k in db.rows ==> db.rows[k].version >= 1
  }

  lemma {:induction false} FreshAt(s: Sys, db: Db, events: seq<Event>, n: nat, i: nat)
    requires i <= n < |events| && FreshCreates(s, db, events)
    ensures CreatesAbove(CommittedOps(s, Run(s, db, events[..n]), events[n]), StateAt(s, db, events, i))
  {
  }

  lemma {:induction false} FreshPositive(s: Sys, db: Db, events: seq<Event>, i: nat, k: Key)
    requires PositiveRows(db.rows) && FreshCreates(s, db, events) && i <= |events|
    ensures PositiveAt(StateAt(s, db, events, i), k)
    decreases i
  {
    if i == 0 {
      assert events[..0] == [];
    } else {
      FreshPositive(s, db, events, i - 1, k);
      FreshAt(s, db, events, i - 1, i - 1);
      RunStep(s, db, events, i - 1);
      StepNet(s, Run(s, db, events[..i - 1]), events[i - 1], k);
    }
  }

  /** At point `m` a present row is at the highest version it ever had. */
  ghost predicate TopAt(s: Sys, db: Db, events: seq<Event>, m: nat, k: Key)
    requires m <= |events|
  {
    k in StateAt(s, db, events, m).rows ==>
      forall i :: 0 <= i <= m ==> VersionOf(StateAt(s, db, events, i), k) <= VersionOf(StateAt(s, db, events, m), k)
  }

  /** The induction: top versions and identification up to point `m`. */
  lemma {:induction false} FreshTop(s: Sys, db: Db, events: seq<Event>, m: nat, k: Key)
    requires PositiveRows(db.rows) && FreshCreates(s, db, events) && m <= |events|
    ensures TopAt(s, db, events, m, k)
    ensures forall i :: 0 <= i <= m ==> Identify(s, db, events, i, m, k)
    decreases m
  {
    if m > 0 {
      FreshTop(s, db, events, m - 1, k);
      FreshAt(s, db, events, m - 1, m - 1);
      RunStep(s, db, events, m - 1);
      StepNet(s, Run(s, db, events[..m - 1]), events[m - 1], k);
      forall i | 0 <= i < m
        ensures k in StateAt(s, db, events, m).rows ==>
                  VersionOf(StateAt(s, db, events, i), k) <= VersionOf(StateAt(s, db, events, m), k)
        ensures Identify(s, db, events, i, m, k)
      {
        FreshTopStep(s, db, events, m, i, k);
      }
    }
  }

  lemma {:induction false} FreshTopStep(s: Sys, db: Db, events: seq<Event>, m: nat, i: nat, k: Key)
    requires PositiveRows(db.rows) && FreshCreates(s, db, events) && i < m <= |events|
    requires TopAt(s, db, events, m - 1, k) && Identify(s, db, events, i, m - 1, k)
    requires NetEffect(CommittedOps(s, Run(s, db, events[..m - 1]), events[m - 1]),
                       StateAt(s, db, events, m - 1), StateAt(s, db, events, m), k)
    ensures k in StateAt(s, db, events, m).rows ==>
              VersionOf(StateAt(s, db, events, i), k) <= VersionOf(StateAt(s, db, events, m), k)
    ensures Identify(s, db, events, i, m, k)
  {
    var st, now, next := StateAt(s, db, events, i), StateAt(s, db, events, m - 1), StateAt(s, db, events, m);
    var ops := CommittedOps(s, Run(s, db, events[..m - 1]), events[m - 1]);
    FreshAt(s, db, events, m - 1, i);
    FreshPositive(s, db, events, i, k);
    if Get(next, k) != Get(now, k) && k in next.rows && !(k in now.rows && next.rows[k].version == now.rows[k].version + 1) {
      var x :| 0 <= x < |ops| && Creates(ops[x], k, next.rows[k].version);
      assert next.rows[k].version > VersionOf(st, k);
    }
  }

  /** If no row is ever re-created at or below a version it had, versions identify contents. */
  lemma {:induction false} FreshCreatesIdentify(s: Sys, db: Db, events: seq<Event>)
    requires PositiveRows(db.rows) && FreshCreates(s, db, events)
    ensures VersionsIdentify(s, db, events)
  {
    forall i, j, k | 0 <= i <= |events| && 0 <= j <= |events| ensures Identify(s, db, events, i, j, k) {
      FreshTop(s, db, events, if i <= j then j else i, k);
      assert Identify(s, db, events, if i <= j then i else j, if i <= j then j else i, k);
    }
  }

  /** Serializability under the condition a deployment can check: creations never reuse a version. */
  lemma {:induction false} FreshRunsSerializable(s: Sys, db: Db, events: seq<Event>)
    requires IsSerializable(s.isolation) && PositiveRows(db.rows) && FreshCreates(s, db, events)
    ensures SerialEquivalent(s, db, Run(s, db, events))
  {
    FreshCreatesIdentify(s, db, events);
    Serializable(s, db, events);
  }
}
