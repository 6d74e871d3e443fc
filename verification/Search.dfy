/** Breadth-first searches over a dependency graph held in memory as adjacency sets. */
module Search {
  import opened Prelude
  import opened Digraph

  type Adjacency = map<string, set<string>>

  function EdgesOf(graph: Adjacency): (es: set<Edge>)
    ensures forall e: Edge :: e in es <==> e.source in graph && e.target in graph[e.source]
  {
    set a, b | a in graph && b in graph[a] :: Edge(a, b)
  }

  function Targets(es: set<Edge>): set<string>
  {
    set e | e in es :: e.target
  }

  /**
   The state between two steps of a search from `from`: only reachable nodes are
   visited, and every edge out of a visited node has been followed, except those out
   of a queued node and those out of `current` to a node in `rest`.
   */
  ghost predicate Frontier(es: set<Edge>, from: string, visited: set<string>, queue: seq<string>,
                           current: string, rest: set<string>)
  {
    && from in visited && current in visited
    && visited <= Targets(es) + {from}
    && (forall x :: x in visited ==> Reaches(es, from, x))
    && (forall x :: x in queue ==> x in visited)
    && (forall e :: e in es && e.source in visited && e.source !in queue && e.target !in visited
                    ==> e.source == current && e.target in rest)
  }

  lemma {:induction false} StartSearch(es: set<Edge>, from: string)
    ensures Frontier(es, from, {from}, [from], from, {})
  {
    ReachesSelf(es, from);
  }

  lemma {:induction false} Dequeue(es: set<Edge>, from: string, visited: set<string>, queue: seq<string>, rest: set<string>)
    requires queue != [] && Frontier(es, from, visited, queue, from, {})
    requires forall e :: e in es && e.source == queue[0] && e.target !in visited ==> e.target in rest
    ensures Frontier(es, from, visited, queue[1..], queue[0], rest)
  {
    assert queue[0] in queue;
    forall e | e in es && e.source in visited && e.source !in queue[1..] && e.target !in visited
      ensures e.source == queue[0] && e.target in rest
    {
      assert e.source != queue[0] ==> e.source !in queue;
    }
  }

  /** Visiting a new neighbour of the current node. */
  lemma {:induction false} Enqueue(es: set<Edge>, from: string, visited: set<string>, queue: seq<string>,
                                   current: string, rest: set<string>, d: string)
    requires Frontier(es, from, visited, queue, current, rest) && Edge(current, d) in es
    ensures Frontier(es, from, visited + {d}, queue + [d], current, rest - {d})
  {
    ReachesEdge(es, from, current, d);
    assert Edge(current, d).target in Targets(es);
    forall e | e in es && e.source in visited + {d} && e.source !in queue + [d] && e.target !in visited + {d}
      ensures e.source == current && e.target in rest - {d}
    {
      assert d in queue + [d];
      assert e.source in queue ==> e.source in queue + [d];
    }
  }

  lemma {:induction false} SkipVisited(es: set<Edge>, from: string, visited: set<string>, queue: seq<string>,
                                       current: string, rest: set<string>, d: string)
    requires Frontier(es, from, visited, queue, current, rest) && d in visited
    ensures Frontier(es, from, visited, queue, current, rest - {d})
  {
  }

  lemma {:induction false} FinishNode(es: set<Edge>, from: string, visited: set<string>, queue: seq<string>, current: string)
    requires Frontier(es, from, visited, queue, current, {})
    ensures Frontier(es, from, visited, queue, from, {})
  {
  }

  /** With an empty queue the visited nodes are exactly the reachable ones. */
  lemma {:induction false} SearchComplete(es: set<Edge>, from: string, visited: set<string>)
    requires Frontier(es, from, visited, [], from, {})
    ensures forall x :: x in visited <==> Reaches(es, from, x)
  {
    assert ClosedUnder(es, visited) by {
      forall e | e in es && e.source in visited ensures e.target in visited {
        assert e.source !in [];
      }
    }
    forall x | Reaches(es, from, x) ensures x in visited {
      ReachesStaysInside(es, visited, from, x);
    }
  }

  lemma {:induction false} SearchShrinks(universe: set<string>, visited: set<string>, d: string)
    requires d in universe && d !in visited
    ensures |universe - (visited + {d})| < |universe - visited|
  {
    assert universe - (visited + {d}) == (universe - visited) - {d};
  }

  /** Path search in the in-memory graph: true exactly when a directed path exists. */
  method GraphPathExists(graph: Adjacency, from: string, target: string) returns (found: bool)
    ensures found <==> Reaches(EdgesOf(graph), from, target)
  {
    ghost var es := EdgesOf(graph);
    if from == target {
      ReachesSelf(es, from);
      return true;
    }
    var visited := {from};
    var queue := [from];
    StartSearch(es, from);
    while queue != []
      invariant Frontier(es, from, visited, queue, from, {}) && target !in visited
      decreases |Targets(es) + {from} - visited|, |queue|
    {
      var current := queue[0];
      ghost var before := visited;
      ghost var popped := queue[1..];
      var rest := if current in graph then graph[current] else {};
      Dequeue(es, from, visited, queue, rest);
      queue := queue[1..];
      while rest != {}
        invariant Frontier(es, from, visited, queue, current, rest) && target !in visited
        invariant forall d :: d in rest ==> Edge(current, d) in es
        invariant before <= visited
        invariant |Targets(es) + {from} - visited| < |Targets(es) + {from} - before| || (visited == before && queue == popped)
        decreases rest
      {
        var dependency :| dependency in rest;
        if dependency == target {
          ReachesEdge(es, from, current, target);
          return true;
        }
        if dependency !in visited {
          Enqueue(es, from, visited, queue, current, rest, dependency);
          SearchShrinks(Targets(es) + {from}, visited, dependency);
          visited := visited + {dependency};
          queue := queue + [dependency];
        } else {
          SkipVisited(es, from, visited, queue, current, rest, dependency);
        }
        rest := rest - {dependency};
      }
      FinishNode(es, from, visited, queue, current);
    }
    SearchComplete(es, from, visited);
    return false;
  }

  predicate Distinct(s: seq<string>)
  {
    forall i, j :: 0 <= i < j < |s| ==> s[i] != s[j]
  }

  /**
   The neighbours of one node, in the order given: stops at `stop` if it is among
   them, otherwise queues each one not visited before.
   */
  method VisitNeighbours(next: seq<string>, stop: Option<string>, seen: set<string>,
                         ghost queue: seq<string>, ghost es: set<Edge>, ghost from: string, ghost current: string)
    returns (hit: bool, visited: set<string>, added: seq<string>)
    requires Frontier(es, from, seen, queue, current, set d | d in next)
    requires forall d :: d in next ==> Edge(current, d) in es
    requires stop.Some? ==> stop.value !in seen
    ensures hit <==> stop.Some? && stop.value in next
    ensures !hit ==> Frontier(es, from, visited, queue + added, from, {})
    ensures visited == seen + set d | d in added
    ensures Distinct(added) && forall d :: d in added ==> d !in seen
    ensures !hit && stop.Some? ==> stop.value !in visited
  {
    visited, added := seen, [];
    ghost var rest := set d | d in next;
    assert queue + [] == queue;
    for i := 0 to |next|
      invariant Frontier(es, from, visited, queue + added, current, rest)
      invariant forall d :: d in rest ==> d in next[i..]
      invariant stop.Some? ==> stop.value !in next[..i] && stop.value !in visited
      invariant visited == seen + set d | d in added
      invariant Distinct(added) && forall d :: d in added ==> d !in seen
    {
      var dependency := next[i];
      assert next[i..] == [dependency] + next[i + 1..];
      assert next[..i + 1] == next[..i] + [dependency];
      if Some(dependency) == stop {
        hit := true;
        return;
      }
      if dependency !in visited {
        Enqueue(es, from, visited, queue + added, current, rest, dependency);
        visited := visited + {dependency};
        added := added + [dependency];
        assert queue + added == queue + added[..|added| - 1] + [dependency];
      } else {
        SkipVisited(es, from, visited, queue + added, current, rest, dependency);
      }
      rest := rest - {dependency};
    }
    assert next[..|next|] == next && next[|next|..] == [];
    assert rest == {};
    FinishNode(es, from, visited, queue + added, current);
    hit := false;
  }

  /** Either nothing new was visited or fewer nodes are left to visit. */
  lemma {:induction false} SearchProgress(universe: set<string>, seen: set<string>, added: seq<string>)
    requires seen + (set d | d in added) <= universe && forall d :: d in added ==> d !in seen
    ensures added == [] || |universe - (seen + set d | d in added)| < |universe - seen|
  {
    if added != [] {
      Shrinks(universe - (seen + set d | d in added), universe - seen, added[0]);
    }
  }
}
