/** Working through a board by closing ready beads. */
module BeadSchedule {
  import opened Json
  import opened Digraph
  import opened BeadSpec
  import opened BeadInvariants

  /** Every bead is open or closed. */
  ghost predicate Settled(b: Board)
  {
    forall id :: id in b.beads ==> IsOpen(b, id) || IsClosed(b, id)
  }

  /** The ordinary transition of a bead to closed, at its current version. */
  function Close(rules: Rules, b: Board, id: string): Outcome<Bead>
    requires id in b.beads
  {
    Transition(rules, b, id, StatusText(Closed), b.beads[id].version)
  }

  /** While a bead is open some bead is ready. */
  lemma {:induction false} SomeBeadIsReady(rules: Rules, b: Board) returns (id: string)
    requires Sound(rules, b) && Settled(b) && OpenIds(b) != {}
    ensures IsReady(b, id)
  {
    FollowsEveryLink(rules, b);
    id := SinkOf(b.links.Keys, OpenIds(b));
    forall e | e in Followed(b) && e.source == id ensures IsClosed(b, e.target) {
      assert e.target !in OpenIds(b);
    }
  }

  lemma {:induction false} ClosedData(rules: Rules, data: Json)
    requires SchemaOk(rules, data) && HasStatus(data, Open)
    ensures SchemaOk(rules, WithStatus(data, StatusText(Closed))) && HasStatus(WithStatus(data, StatusText(Closed)), Closed)
  {
    var closed := WithStatus(data, StatusText(Closed));
    assert closed.members - {STATUS, DEPENDENCIES, "id"} == data.members - {STATUS, DEPENDENCIES, "id"};
  }

  /** Closing an open bead always takes effect, and changes the status of no other bead. */
  lemma {:induction false} CloseWorks(rules: Rules, b: Board, id: string)
    requires Sound(rules, b) && IsOpen(b, id)
    ensures var after := Close(rules, b, id).board;
            && after == b.(beads := b.beads[id := Bead(b.beads[id].version + 1, WithStatus(b.beads[id].data, StatusText(Closed)))])
            && IsClosed(after, id)
  {
    ClosedData(rules, b.beads[id].data);
  }

  lemma {:induction false} CloseStep(rules: Rules, b: Board, id: string)
    requires Sound(rules, b) && Settled(b) && IsOpen(b, id)
    ensures var after := Close(rules, b, id).board;
            && Sound(rules, after) && Settled(after)
            && OpenIds(after) == OpenIds(b) - {id} && after.beads.Keys == b.beads.Keys
  {
    CloseWorks(rules, b, id);
    ActKeepsSound(rules, b, TransitionAct(id, StatusText(Closed), b.beads[id].version));
    OthersUntouched(b, Close(rules, b, id).board, id);
  }

  lemma {:induction false} OthersUntouched(b: Board, after: Board, id: string)
    requires Settled(b) && id in after.beads && after == b.(beads := b.beads[id := after.beads[id]]) && IsClosed(after, id)
    ensures Settled(after) && OpenIds(after) == OpenIds(b) - {id}
  {
    forall x | x in after.beads && x != id ensures IsOpen(after, x) == IsOpen(b, x) && IsClosed(after, x) == IsClosed(b, x) {
    }
  }

  /** Closing the listed beads one after the other, each ready when its turn comes. */
  ghost predicate ReadyInTurn(rules: Rules, b: Board, ids: seq<string>)
    decreases |ids|
  {
    ids == [] || (IsReady(b, ids[0]) && ReadyInTurn(rules, Close(rules, b, ids[0]).board, ids[1..]))
  }

  ghost function CloseAll(rules: Rules, b: Board, ids: seq<string>): Board
    requires ReadyInTurn(rules, b, ids)
    decreases |ids|
  {
    if ids == [] then b else CloseAll(rules, Close(rules, b, ids[0]).board, ids[1..])
  }

  lemma {:induction false} EachCloseCounts(rules: Rules, b: Board, ids: seq<string>)
    requires Sound(rules, b) && Settled(b) && ReadyInTurn(rules, b, ids)
    ensures var after := CloseAll(rules, b, ids);
            && Sound(rules, after) && Settled(after) && after.beads.Keys == b.beads.Keys
            && |ids| + |OpenIds(after)| == |OpenIds(b)|
    decreases |ids|
  {
    if ids != [] {
      CloseStep(rules, b, ids[0]);
      assert ids[0] in OpenIds(b);
      EachCloseCounts(rules, Close(rules, b, ids[0]).board, ids[1..]);
    }
  }

  /**
   Closing ready beads, in any order, until none is ready: it takes exactly as many
   steps as there were open beads, and then every bead is closed. No order gets stuck.
   */
  lemma {:induction false} EveryScheduleFinishes(rules: Rules, b: Board, ids: seq<string>)
    requires Sound(rules, b) && Settled(b) && ReadyInTurn(rules, b, ids)
    ensures var after := CloseAll(rules, b, ids);
            var stuck := forall id :: !IsReady(after, id);
            && |ids| <= |OpenIds(b)|
            && (stuck <==> |ids| == |OpenIds(b)|)
            && (stuck ==> forall id :: id in b.beads ==> IsClosed(after, id))
  {
    var after := CloseAll(rules, b, ids);
    EachCloseCounts(rules, b, ids);
    if OpenIds(after) != {} {
      var id := SomeBeadIsReady(rules, after);
    } else {
      forall id ensures !IsReady(after, id) && (id in b.beads ==> IsClosed(after, id)) {
        assert IsOpen(after, id) ==> id in OpenIds(after);
      }
    }
  }
}
