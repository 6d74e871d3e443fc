/** Finite directed graphs over string nodes: paths, reachability and acyclicity. */
module Digraph {

  datatype Edge = Edge(source: string, target: string)

  /** `p` lists the nodes of a directed path; a single node is the empty path. */
  predicate IsPath(es: set<Edge>, p: seq<string>)
  {
    p != [] && (|p| > 1 ==> Edge(p[0], p[1]) in es && IsPath(es, p[1..]))
  }

  predicate PathFromTo(es: set<Edge>, p: seq<string>, a: string, b: string)
  {
    IsPath(es, p) && p[0] == a && p[|p| - 1] == b
  }

  ghost predicate Reaches(es: set<Edge>, a: string, b: string)
  {
    exists p :: PathFromTo(es, p, a, b)
  }

  /** No edge leads back to where it started. */
  ghost predicate Acyclic(es: set<Edge>)
  {
    forall e :: e in es ==> !Reaches(es, e.target, e.source)
  }

  lemma {:induction false} ReachesSelf(es: set<Edge>, a: string)
    ensures Reaches(es, a, a)
  {
    assert PathFromTo(es, [a], a, a);
  }

  lemma {:induction false} PrependPath(es: set<Edge>, a: string, p: seq<string>, c: string)
    requires p != [] && Edge(a, p[0]) in es && PathFromTo(es, p, p[0], c)
    ensures PathFromTo(es, [a] + p, a, c)
  {
    var q := [a] + p;
    assert q[1..] == p && q[0] == a && q[1] == p[0] && q[|q| - 1] == p[|p| - 1];
  }

  lemma {:induction false} ReachesStep(es: set<Edge>, a: string, b: string, c: string)
    requires Edge(a, b) in es && Reaches(es, b, c)
    ensures Reaches(es, a, c)
  {
    var p :| PathFromTo(es, p, b, c);
    PrependPath(es, a, p, c);
  }

  lemma {:induction false} ReachesAlong(es: set<Edge>, p: seq<string>, a: string, b: string, c: string)
    requires PathFromTo(es, p, a, b) && Reaches(es, b, c)
    ensures Reaches(es, a, c)
    decreases |p|
  {
    if |p| > 1 {
      assert PathFromTo(es, p[1..], p[1], b);
      ReachesAlong(es, p[1..], p[1], b, c);
      ReachesStep(es, a, p[1], c);
    }
  }

  lemma {:induction false} ReachesTransitive(es: set<Edge>, a: string, b: string, c: string)
    requires Reaches(es, a, b) && Reaches(es, b, c)
    ensures Reaches(es, a, c)
  {
    var p :| PathFromTo(es, p, a, b);
    ReachesAlong(es, p, a, b, c);
  }

  lemma {:induction false} ReachesEdge(es: set<Edge>, a: string, b: string, c: string)
    requires Reaches(es, a, b) && Edge(b, c) in es
    ensures Reaches(es, a, c)
  {
    ReachesSelf(es, c);
    ReachesStep(es, b, c, c);
    ReachesTransitive(es, a, b, c);
  }

  lemma {:induction false} PathMonotone(es: set<Edge>, more: set<Edge>, p: seq<string>)
    requires es <= more && IsPath(es, p)
    ensures IsPath(more, p)
    decreases |p|
  {
    if |p| > 1 { PathMonotone(es, more, p[1..]); }
  }

  lemma {:induction false} ReachesMonotone(es: set<Edge>, more: set<Edge>, a: string, b: string)
    requires es <= more && Reaches(es, a, b)
    ensures Reaches(more, a, b)
  {
    var p :| PathFromTo(es, p, a, b);
    PathMonotone(es, more, p);
    assert PathFromTo(more, p, a, b);
  }

  lemma {:induction false} AcyclicMonotone(es: set<Edge>, more: set<Edge>)
    requires es <= more && Acyclic(more)
    ensures Acyclic(es)
  {
    forall e | e in es ensures !Reaches(es, e.target, e.source) {
      if Reaches(es, e.target, e.source) { ReachesMonotone(es, more, e.target, e.source); }
    }
  }

  /** A path that may use one extra edge either avoids it or goes through it. */
  lemma {:induction false} PathThroughEdge(es: set<Edge>, e: Edge, p: seq<string>, a: string, b: string)
    requires PathFromTo(es + {e}, p, a, b)
    ensures Reaches(es, a, b) || (Reaches(es, a, e.source) && Reaches(es, e.target, b))
    decreases |p|
  {
    if |p| == 1 {
      ReachesSelf(es, a);
    } else {
      assert PathFromTo(es + {e}, p[1..], p[1], b);
      PathThroughEdge(es, e, p[1..], p[1], b);
      if Edge(a, p[1]) == e {
        ReachesSelf(es, a);
      } else if Reaches(es, p[1], b) {
        ReachesStep(es, a, p[1], b);
      } else {
        ReachesStep(es, a, p[1], e.source);
      }
    }
  }

  lemma {:induction false} ReachesThroughEdge(es: set<Edge>, e: Edge, a: string, b: string)
    requires Reaches(es + {e}, a, b)
    ensures Reaches(es, a, b) || (Reaches(es, a, e.source) && Reaches(es, e.target, b))
  {
    var p :| PathFromTo(es + {e}, p, a, b);
    PathThroughEdge(es, e, p, a, b);
  }

  lemma {:induction false} SafeEdgeKeepsAcyclic(es: set<Edge>, e: Edge)
    requires Acyclic(es) && !Reaches(es, e.target, e.source)
    ensures Acyclic(es + {e})
  {
    forall f | f in es + {e} ensures !Reaches(es + {e}, f.target, f.source) {
      if Reaches(es + {e}, f.target, f.source) {
        ReachesThroughEdge(es, e, f.target, f.source);
        if f != e {
          ReachesEdge(es, e.target, f.source, f.target);
          ReachesTransitive(es, e.target, f.target, e.source);
        }
      }
    }
  }

  /** An edge may be added without closing a cycle exactly when its target does not reach its source. */
  lemma {:induction false} AddableExactly(es: set<Edge>, e: Edge)
    ensures Acyclic(es + {e}) <==> Acyclic(es) && !Reaches(es, e.target, e.source)
  {
    if Acyclic(es + {e}) {
      AcyclicMonotone(es, es + {e});
      assert e in es + {e};
      if Reaches(es, e.target, e.source) { ReachesMonotone(es, es + {e}, e.target, e.source); }
    } else if Acyclic(es) && !Reaches(es, e.target, e.source) {
      SafeEdgeKeepsAcyclic(es, e);
    }
  }

  /** Acyclicity said with paths: no path with at least one edge returns to its first node. */
  lemma {:induction false} AcyclicMeansNoCycle(es: set<Edge>)
    ensures Acyclic(es) <==> forall p :: IsPath(es, p) && |p| > 1 ==> p[0] != p[|p| - 1]
  {
    if Acyclic(es) {
      forall p | IsPath(es, p) && |p| > 1 ensures p[0] != p[|p| - 1] {
        assert PathFromTo(es, p[1..], p[1], p[|p| - 1]);
        assert Edge(p[0], p[1]) in es;
      }
    } else {
      var e :| e in es && Reaches(es, e.target, e.source);
      var p :| PathFromTo(es, p, e.target, e.source);
      PrependPath(es, e.source, p, e.source);
    }
  }

  ghost predicate ClosedUnder(es: set<Edge>, s: set<string>)
  {
    forall e :: e in es && e.source in s ==> e.target in s
  }

  lemma {:induction false} PathStaysInside(es: set<Edge>, s: set<string>, p: seq<string>, a: string, b: string)
    requires ClosedUnder(es, s) && a in s && PathFromTo(es, p, a, b)
    ensures b in s
    decreases |p|
  {
    if |p| > 1 {
      var e := Edge(a, p[1]);
      assert e in es && e.target in s;
      assert PathFromTo(es, p[1..], p[1], b);
      PathStaysInside(es, s, p[1..], p[1], b);
    }
  }

  lemma {:induction false} ReachesStaysInside(es: set<Edge>, s: set<string>, a: string, b: string)
    requires ClosedUnder(es, s) && a in s && Reaches(es, a, b)
    ensures b in s
  {
    var p :| PathFromTo(es, p, a, b);
    PathStaysInside(es, s, p, a, b);
  }

  ghost predicate LeadsOn(es: set<Edge>, a: string, b: string)
  {
    exists e :: e in es && e.source == a && Reaches(es, e.target, b)
  }

  /** In a finite acyclic graph every non-empty set of nodes holds one with no edge into the set. */
  lemma {:induction false} SinkOf(es: set<Edge>, s: set<string>) returns (x: string)
    requires Acyclic(es) && s != {}
    ensures x in s && forall e :: e in es && e.source == x ==> e.target !in s
    decreases |s|
  {
    var a :| a in s;
    if forall e :: e in es && e.source == a ==> e.target !in s {
      x := a;
    } else {
      var first :| first in es && first.source == a && first.target in s;
      var later := set y | y in s && LeadsOn(es, a, y);
      ReachesSelf(es, first.target);
      assert first.target in later;
      assert a !in later;
      Shrinks(later, s, a);
      x := SinkOf(es, later);
      var from :| from in es && from.source == a && Reaches(es, from.target, x);
      forall e | e in es && e.source == x ensures e.target !in s {
        ReachesEdge(es, from.target, x, e.target);
        assert e.target in s ==> e.target in later;
      }
    }
  }

  lemma {:induction false} Shrinks(small: set<string>, s: set<string>, a: string)
    requires small <= s && a in s && a !in small
    ensures |small| < |s|
  {
    SubsetNoLarger(small, s - {a});
  }

  lemma {:induction false} SubsetNoLarger(small: set<string>, s: set<string>)
    requires small <= s
    ensures |small| <= |s|
    decreases small
  {
    if small != {} {
      var x :| x in small;
      SubsetNoLarger(small - {x}, s - {x});
    }
  }
}
