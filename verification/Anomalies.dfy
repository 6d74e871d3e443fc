/** Runs that are not serial: write skew under Snapshot, and a re-created version under Serializable. */
module Anomalies {
  import opened Prelude
  import opened Json
  import opened Audit
  import opened Store
  import opened TxSpec
  import opened Versions
  import opened Serializability

  const X := Key("c", "x")
  const Y := Key("c", "y")

  /** Two rows at version 1. */
  const START := Db(map[X := Entity(X, 1, Null), Y := Entity(Y, 1, Null)], map[], map[], Log([], 0))

  const OPEN_ENV := Env((c: string, d: Json) => true, (c: string, strict: bool) => 0, (id: nat) => 0)

  function Remove(k: Key, expected: nat): StagedOp
  {
    EntityOp(WriteOp(Entity(k, expected, Null), expected, None, EntityDelete, PresentEntity))
  }

  function PutData(k: Key, version: nat, data: Json): StagedOp
  {
    EntityOp(WriteOp(Entity(k, version, data), 0, None, EntityCreate, PresentEntity))
  }

  /** A one-operation transaction whose reads hold commits exactly when its operation applies. */
  lemma {:induction false} SingleCommit(s: Sys, t: nat, obs: seq<Observation>, op: StagedOp, db: Db)
    requires CheckOp(s.env, db, op) == None
    requires IsSerializable(s.isolation) ==> CheckReads(db, ReadRefs(obs), 0) == None
    requires ApplyOp(Progress(db, [], []), op, Context(s.ids(t), None, None, None)).Ok?
    ensures var out := Attempt(s, t, obs, [op], db);
            out.result.Ok? &&
            out.db.rows == ApplyOp(Progress(db, [], []), op, Context(s.ids(t), None, None, None)).value.db.rows
  {
    var ops, ctx := [op], Context(s.ids(t), None, None, None);
    assert CheckFrom(s.env, db, ops, 1) == None;
    var p := Progress(db, [], []);
    assert ApplyFrom(p, ops, 0, ctx) == ApplyFrom(ApplyOp(p, op, ctx).value, ops, 1, ctx);
  }

  lemma {:induction false} TouchCommits(s: Sys, t: nat, obs: seq<Observation>, db: Db, k: Key, v: nat)
    requires k in db.rows && db.rows[k].version == v && s.env == OPEN_ENV
    requires IsSerializable(s.isolation) ==> CheckReads(db, ReadRefs(obs), 0) == None
    ensures var out := Attempt(s, t, obs, [Touch(k, v)], db);
            out.result.Ok? && out.db.rows == db.rows[k := Entity(k, v + 1, Null)]
  {
    SingleCommit(s, t, obs, Touch(k, v), db);
  }

  // ---------------------------------------------------------------------------
  // Write skew
  // ---------------------------------------------------------------------------

  /** Program 0 reads Y and writes X; every other program reads X and writes Y. */
  function Skewed(t: nat): Program
  {
    if t == 0 then (obs: seq<Observation>) => if obs == [] then Read(Y) else Finish([Touch(X, 1)])
    else (obs: seq<Observation>) => if obs == [] then Read(X) else Finish([Touch(Y, 1)])
  }

  const SKEW := Sys(Skewed, (t: nat) => "tx", Snapshot, OPEN_ENV)

  const SKEW_EVENTS := [ReadEvent(0), ReadEvent(1), CommitEvent(0), CommitEvent(1)]

  const SAW_X := [Observation(X, Some(Entity(X, 1, Null)))]
  const SAW_Y := [Observation(Y, Some(Entity(Y, 1, Null)))]

  lemma {:induction false} ReadStep(s: Sys, w: World, t: nat, k: Key)
    requires t !in w.done && t !in w.seen && s.programs(t)([]) == Read(k)
    ensures Step(s, w, ReadEvent(t)) == w.(seen := w.seen[t := [Observation(k, Get(w.db, k))]])
  {
    assert [] + [Observation(k, Get(w.db, k))] == [Observation(k, Get(w.db, k))];
  }

  lemma {:induction false} CommitStep(s: Sys, w: World, t: nat, obs: seq<Observation>, ops: seq<StagedOp>)
    requires t !in w.done && Seen(w, t) == obs && s.programs(t)(obs) == Finish(ops)
    requires Attempt(s, t, obs, ops, w.db).result.Ok?
    ensures Step(s, w, CommitEvent(t)) ==
            World(Attempt(s, t, obs, ops, w.db).db, w.seen[t := obs], w.done + {t}, w.committed + [t])
  {
  }

  lemma {:induction false} FourSteps(s: Sys, db: Db, e: seq<Event>)
    requires |e| == 4
    ensures var w0 := World(db, map[], {}, []);
            Run(s, db, e) == Step(s, Step(s, Step(s, Step(s, w0, e[0]), e[1]), e[2]), e[3])
  {
    TwoSteps(s, db, e);
    RunStep(s, db, e, 2);
    RunStep(s, db, e, 3);
    assert e[..4] == e;
  }

  lemma {:induction false} TwoSteps(s: Sys, db: Db, e: seq<Event>)
    requires |e| >= 2
    ensures Run(s, db, e[..2]) == Step(s, Step(s, World(db, map[], {}, []), e[0]), e[1])
  {
    RunStep(s, db, e, 0);
    RunStep(s, db, e, 1);
    assert e[..0] == [];
  }

  lemma {:induction false} SkewRun() returns (mid: Db)
    ensures var w := Run(SKEW, START, SKEW_EVENTS);
            && w.committed == [0, 1]
            && w.seen == map[0 := SAW_Y, 1 := SAW_X]
            && mid == Attempt(SKEW, 0, SAW_Y, [Touch(X, 1)], START).db
            && mid.rows == START.rows[X := Entity(X, 2, Null)]
  {
    mid := SkewThird();
    SkewReads();
    SkewLast(World(mid, map[0 := SAW_Y, 1 := SAW_X], {0}, [0]), mid);
    FourSteps(SKEW, START, SKEW_EVENTS);
  }

  lemma {:induction false} SkewReads()
    ensures Step(SKEW, Step(SKEW, World(START, map[], {}, []), ReadEvent(0)), ReadEvent(1)) ==
            World(START, map[0 := SAW_Y, 1 := SAW_X], {}, [])
  {
    var w0 := World(START, map[], {}, []);
    ReadStep(SKEW, w0, 0, Y);
    var w1 := World(START, map[0 := SAW_Y], {}, []);
    assert Step(SKEW, w0, ReadEvent(0)) == w1;
    ReadStep(SKEW, w1, 1, X);
  }

  lemma {:induction false} SkewThird() returns (mid: Db)
    ensures mid == Attempt(SKEW, 0, SAW_Y, [Touch(X, 1)], START).db
    ensures mid.rows == START.rows[X := Entity(X, 2, Null)]
    ensures Step(SKEW, World(START, map[0 := SAW_Y, 1 := SAW_X], {}, []), CommitEvent(0)) ==
            World(mid, map[0 := SAW_Y, 1 := SAW_X], {0}, [0])
  {
    var w2 := World(START, map[0 := SAW_Y, 1 := SAW_X], {}, []);
    TouchCommits(SKEW, 0, SAW_Y, START, X, 1);
    CommitStep(SKEW, w2, 0, SAW_Y, [Touch(X, 1)]);
    mid := Attempt(SKEW, 0, SAW_Y, [Touch(X, 1)], START).db;
  }

  lemma {:induction false} SkewLast(w: World, mid: Db)
    requires w == World(mid, map[0 := SAW_Y, 1 := SAW_X], {0}, [0])
    requires mid.rows == START.rows[X := Entity(X, 2, Null)]
    ensures var w' := Step(SKEW, w, CommitEvent(1));
            w'.committed == [0, 1] && w'.seen == map[0 := SAW_Y, 1 := SAW_X]
  {
    TouchCommits(SKEW, 1, SAW_X, mid, Y, 1);
    CommitStep(SKEW, w, 1, SAW_X, [Touch(Y, 1)]);
  }

  /**
   Under Snapshot both halves of a write skew commit, and no serial order of the
   two explains what they read.
   */
  lemma {:induction false} SnapshotAllowsWriteSkew()
    ensures var w := Run(SKEW, START, SKEW_EVENTS);
            && w.committed == [0, 1]
            && !SerialReads(SKEW, START, [0, 1], w.seen)
            && !SerialReads(SKEW, START, [1, 0], w.seen)
  {
    var mid := SkewRun();
    var w := Run(SKEW, START, SKEW_EVENTS);
    SkewOrder(w.seen, [0, 1], mid, X);
    TouchCommits(SKEW, 1, w.seen[1], START, Y, 1);
    SkewOrder(w.seen, [1, 0], Attempt(SKEW, 1, w.seen[1], [Touch(Y, 1)], START).db, Y);
  }

  lemma {:induction false} SkewOrder(seen: map<nat, seq<Observation>>, order: seq<nat>, after: Db, k: Key)
    requires order == [0, 1] || order == [1, 0]
    requires seen == map[0 := SAW_Y, 1 := SAW_X]
    requires k == if order[0] == 0 then X else Y
    requires after == Attempt(SKEW, order[0], seen[order[0]], [Touch(k, 1)], START).db
    requires k in after.rows && after.rows[k].version == 2
    ensures !SerialReads(SKEW, START, order, seen)
  {
    assert order[..1] == [order[0]] && order[..1][..0] == [];
    assert Serial(SKEW, START, [], seen) == START;
    assert Serial(SKEW, START, order[..1], seen) == after;
    assert seen[order[1]][0].row != Get(after, k);
  }

  // ---------------------------------------------------------------------------
  // A version used twice
  // ---------------------------------------------------------------------------

  /** Program 0 reads X, then Y; program 1 deletes X; the others create X again at version 1 and update Y. */
  function Reusing(t: nat): Program
  {
    if t == 0 then
      (obs: seq<Observation>) => if obs == [] then Read(X) else if |obs| == 1 then Read(Y) else Finish([])
    else if t == 1 then (obs: seq<Observation>) => Finish([Remove(X, 1)])
    else (obs: seq<Observation>) => Finish(RECREATE)
  }

  const RECREATE := [PutData(X, 1, Bool(true)), Touch(Y, 1)]

  const REUSE := Sys(Reusing, (t: nat) => "tx", Serializable, OPEN_ENV)

  const REUSE_EVENTS := [ReadEvent(0), CommitEvent(1), CommitEvent(2), ReadEvent(0), CommitEvent(0)]

  /** The contents of X from before the deletion, and of Y from after the re-creation. */
  const SAW_BOTH := [Observation(X, Some(Entity(X, 1, Null))), Observation(Y, Some(Entity(Y, 2, Null)))]

  const REUSE_SEEN: map<nat, seq<Observation>> := map[0 := SAW_BOTH, 1 := [], 2 := []]

  predicate OrderOfThree(order: seq<nat>)
  {
    |order| == 3 && order[0] != order[1] && order[1] != order[2] && order[0] != order[2] && forall i :: 0 <= i < 3 ==> order[i] < 3
  }

  /**
   Deleting a row and creating it again at a version it had defeats read validation: all three
   programs commit under Serializable, and no serial order of them explains what program 0 read.
   */
  lemma {:induction false} ReusedVersionBreaksSerializability(order: seq<nat>)
    requires OrderOfThree(order)
    ensures var w := Run(REUSE, START, REUSE_EVENTS);
            w.committed == [1, 2, 0] && !SerialReads(REUSE, START, order, w.seen)
  {
    var d1, d2 := ReuseRun();
    if order[0] == 0 {
      ReaderFirst(order);
    } else if order[0] == 2 {
      CreatorFirst(order);
    } else if order[1] == 0 {
      ReaderSecond(order, d1);
    } else {
      ReaderLast(order, d1, d2);
    }
  }

  // ---- The run ----

  lemma {:induction false} RecreateCommits(d1: Db)
    requires d1.rows == map[Y := Entity(Y, 1, Null)]
    ensures var out := Attempt(REUSE, 2, [], RECREATE, d1);
            out.result.Ok? && out.db.rows == map[X := Entity(X, 1, Bool(true)), Y := Entity(Y, 2, Null)]
  {
    var ctx, p := Context("tx", None, None, None), Progress(d1, [], []);
    assert CheckFrom(OPEN_ENV, d1, RECREATE, 2) == None;
    assert CheckFrom(OPEN_ENV, d1, RECREATE, 1) == None;
    assert CheckReads(d1, ReadRefs([]), 0) == None;
    RecreateApplies(d1, p, ctx);
  }

  lemma {:induction false} RecreateApplies(d1: Db, p: Progress, ctx: Context)
    requires d1.rows == map[Y := Entity(Y, 1, Null)] && p == Progress(d1, [], [])
    ensures var r := ApplyFrom(p, RECREATE, 0, ctx);
            r.Ok? && r.value.db.rows == map[X := Entity(X, 1, Bool(true)), Y := Entity(Y, 2, Null)]
  {
    var q := ApplyOp(p, RECREATE[0], ctx).value;
    assert ApplyFrom(p, RECREATE, 0, ctx) == ApplyFrom(q, RECREATE, 1, ctx);
    assert q.db.rows == map[X := Entity(X, 1, Bool(true)), Y := Entity(Y, 1, Null)];
    var last := ApplyOp(q, RECREATE[1], ctx).value;
    assert ApplyFrom(q, RECREATE, 1, ctx) == ApplyFrom(last, RECREATE, 2, ctx);
  }

  lemma {:induction false} ReuseDelete() returns (d1: Db)
    ensures d1 == Attempt(REUSE, 1, [], [Remove(X, 1)], START).db && d1.rows == map[Y := Entity(Y, 1, Null)]
    ensures Step(REUSE, Step(REUSE, World(START, map[], {}, []), ReadEvent(0)), CommitEvent(1)) ==
            World(d1, map[0 := SAW_X, 1 := []], {1}, [1])
  {
    ReadStep(REUSE, World(START, map[], {}, []), 0, X);
    SingleCommit(REUSE, 1, [], Remove(X, 1), START);
    CommitStep(REUSE, World(START, map[0 := SAW_X], {}, []), 1, [], [Remove(X, 1)]);
    d1 := Attempt(REUSE, 1, [], [Remove(X, 1)], START).db;
  }

  lemma {:induction false} ReuseCreate(d1: Db) returns (d2: Db)
    requires d1.rows == map[Y := Entity(Y, 1, Null)]
    ensures d2 == Attempt(REUSE, 2, [], RECREATE, d1).db
    ensures d2.rows == map[X := Entity(X, 1, Bool(true)), Y := Entity(Y, 2, Null)]
    ensures Step(REUSE, World(d1, map[0 := SAW_X, 1 := []], {1}, [1]), CommitEvent(2)) ==
            World(d2, map[0 := SAW_X, 1 := [], 2 := []], {1, 2}, [1, 2])
  {
    RecreateCommits(d1);
    CommitStep(REUSE, World(d1, map[0 := SAW_X, 1 := []], {1}, [1]), 2, [], RECREATE);
    d2 := Attempt(REUSE, 2, [], RECREATE, d1).db;
  }

  lemma {:induction false} ReuseSecondRead(d2: Db)
    requires d2.rows == map[X := Entity(X, 1, Bool(true)), Y := Entity(Y, 2, Null)]
    ensures Step(REUSE, World(d2, map[0 := SAW_X, 1 := [], 2 := []], {1, 2}, [1, 2]), ReadEvent(0)) ==
            World(d2, REUSE_SEEN, {1, 2}, [1, 2])
  {
    assert SAW_X + [Observation(Y, Get(d2, Y))] == SAW_BOTH;
    assert map[0 := SAW_X, 1 := [], 2 := []][0 := SAW_BOTH] == REUSE_SEEN;
  }

  lemma {:induction false} ReuseLast(d2: Db)
    requires d2.rows == map[X := Entity(X, 1, Bool(true)), Y := Entity(Y, 2, Null)]
    ensures var w := Step(REUSE, World(d2, REUSE_SEEN, {1, 2}, [1, 2]), CommitEvent(0));
            w.committed == [1, 2, 0] && w.seen == REUSE_SEEN
  {
    assert CheckReads(d2, ReadRefs(SAW_BOTH), 2) == None;
    assert CheckReads(d2, ReadRefs(SAW_BOTH), 1) == None;
    assert CheckReads(d2, ReadRefs(SAW_BOTH), 0) == None;
    assert Attempt(REUSE, 0, SAW_BOTH, [], d2).result.Ok?;
    CommitStep(REUSE, World(d2, REUSE_SEEN, {1, 2}, [1, 2]), 0, SAW_BOTH, []);
  }

  lemma {:induction false} FiveSteps(s: Sys, db: Db, e: seq<Event>)
    requires |e| == 5
    ensures var w0 := World(db, map[], {}, []);
            Run(s, db, e) == Step(s, Step(s, Step(s, Step(s, Step(s, w0, e[0]), e[1]), e[2]), e[3]), e[4])
  {
    FourSteps(s, db, e[..4]);
    RunStep(s, db, e, 4);
    assert e[..5] == e;
  }

  lemma {:induction false} ReuseRun() returns (d1: Db, d2: Db)
    ensures Run(REUSE, START, REUSE_EVENTS).committed == [1, 2, 0] && Run(REUSE, START, REUSE_EVENTS).seen == REUSE_SEEN
    ensures d1 == Attempt(REUSE, 1, [], [Remove(X, 1)], START).db && d1.rows == map[Y := Entity(Y, 1, Null)]
    ensures d2 == Attempt(REUSE, 2, [], RECREATE, d1).db
    ensures d2.rows == map[X := Entity(X, 1, Bool(true)), Y := Entity(Y, 2, Null)]
  {
    d1 := ReuseDelete();
    d2 := ReuseCreate(d1);
    ReuseSecondRead(d2);
    ReuseLast(d2);
    FiveSteps(REUSE, START, REUSE_EVENTS);
  }

  // ---- No order explains the reads ----

  /** A reader is explained only by a store that holds what it read. */
  lemma {:induction false} ReaderNeeds(order: seq<nat>, i: nat, before: Db)
    requires i < |order| && order[i] == 0 && before == Serial(REUSE, START, order[..i], REUSE_SEEN)
    requires Get(before, X) != Some(Entity(X, 1, Null)) || Get(before, Y) != Some(Entity(Y, 2, Null))
    ensures !SerialReads(REUSE, START, order, REUSE_SEEN)
  {
    assert SAW_BOTH[0].row == Some(Entity(X, 1, Null)) && SAW_BOTH[1].row == Some(Entity(Y, 2, Null));
    assert !Alone(REUSE.programs(0), before, SAW_BOTH);
  }

  lemma {:induction false} ReaderFirst(order: seq<nat>)
    requires OrderOfThree(order) && order[0] == 0
    ensures !SerialReads(REUSE, START, order, REUSE_SEEN)
  {
    assert order[..0] == [];
    ReaderNeeds(order, 0, START);
  }

  /** Creating X while it exists is refused. */
  lemma {:induction false} CreatorFirst(order: seq<nat>)
    requires OrderOfThree(order) && order[0] == 2
    ensures !SerialReads(REUSE, START, order, REUSE_SEEN)
  {
    assert order[..0] == [];
    assert CheckOp(OPEN_ENV, START, RECREATE[0]).Some?;
    assert Attempt(REUSE, 2, [], RECREATE, START).result.Err?;
    assert Serial(REUSE, START, order[..0], REUSE_SEEN) == START;
  }

  lemma {:induction false} DeleterFirst(order: seq<nat>, d1: Db)
    requires |order| >= 1 && order[0] == 1 && d1 == Attempt(REUSE, 1, [], [Remove(X, 1)], START).db
    ensures Serial(REUSE, START, order[..1], REUSE_SEEN) == d1
  {
    assert order[..1] == [1] && [1][..0] == [];
    assert Serial(REUSE, START, [], REUSE_SEEN) == START;
  }

  lemma {:induction false} ReaderSecond(order: seq<nat>, d1: Db)
    requires OrderOfThree(order) && order[0] == 1 && order[1] == 0
    requires d1 == Attempt(REUSE, 1, [], [Remove(X, 1)], START).db && d1.rows == map[Y := Entity(Y, 1, Null)]
    ensures !SerialReads(REUSE, START, order, REUSE_SEEN)
  {
    DeleterFirst(order, d1);
    ReaderNeeds(order, 1, d1);
  }

  lemma {:induction false} ReaderLast(order: seq<nat>, d1: Db, d2: Db)
    requires OrderOfThree(order) && order[0] == 1 && order[1] == 2
    requires d1 == Attempt(REUSE, 1, [], [Remove(X, 1)], START).db && d2 == Attempt(REUSE, 2, [], RECREATE, d1).db
    requires d2.rows == map[X := Entity(X, 1, Bool(true)), Y := Entity(Y, 2, Null)]
    ensures !SerialReads(REUSE, START, order, REUSE_SEEN)
  {
    DeleterFirst(order, d1);
    assert order[..2][..1] == order[..1];
    assert Serial(REUSE, START, order[..2], REUSE_SEEN) == d2;
    ReaderNeeds(order, 2, d2);
  }
}
