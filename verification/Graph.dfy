/** Directed graphs as finite sets of edges, and reachability along them. */
module Graph {

  type Edge = (nat, nat)

  /** A walk along at least one edge. */
  predicate IsPath(edges: set<Edge>, path: seq<nat>) {
    && |path| >= 2
    && forall i :: 0 <= i < |path| - 1 ==> (path[i], path[i + 1]) in edges
  }

  predicate Joins(edges: set<Edge>, path: seq<nat>, a: nat, b: nat) {
    IsPath(edges, path) && path[0] == a && path[|path| - 1] == b
  }

  /** `b` lies strictly downstream of `a`. */
  ghost predicate Reaches(edges: set<Edge>, a: nat, b: nat) {
    exists path :: Joins(edges, path, a, b)
  }

  ghost predicate Downstream(edges: set<Edge>, from: set<nat>, b: nat) {
    exists a :: a in from && Reaches(edges, a, b)
  }

  ghost predicate Forward(edges: set<Edge>) {
    forall e :: e in edges ==> e.0 < e.1
  }

  /** How many edges lead into a node. */
  function InDegree(edges: set<Edge>, node: nat): nat {
    |Into(edges, node)|
  }

  function Into(edges: set<Edge>, node: nat): set<Edge> {
    set e | e in edges && e.1 == node
  }

  lemma IntoGrows(edges: set<Edge>, e: Edge, i: nat)
    requires e !in edges
    ensures InDegree(edges + {e}, i) == InDegree(edges, i) + if e.1 == i then 1 else 0
  {
    if e.1 == i {
      assert Into(edges + {e}, i) == Into(edges, i) + {e};
    } else {
      assert Into(edges + {e}, i) == Into(edges, i);
    }
  }

  lemma EdgeReaches(edges: set<Edge>, a: nat, b: nat)
    requires (a, b) in edges
    ensures Reaches(edges, a, b)
  {
    assert Joins(edges, [a, b], a, b);
  }

  lemma ReachExtends(edges: set<Edge>, a: nat, m: nat, b: nat)
    requires Reaches(edges, a, m) && (m, b) in edges
    ensures Reaches(edges, a, b)
  {
    var path :| Joins(edges, path, a, m);
    assert Joins(edges, path + [b], a, b);
  }

  lemma ReachPrepends(edges: set<Edge>, a: nat, m: nat, b: nat)
    requires (a, m) in edges && Reaches(edges, m, b)
    ensures Reaches(edges, a, b)
  {
    var path :| Joins(edges, path, m, b);
    var longer := [a] + path;
    forall i | 0 <= i < |longer| - 1 ensures (longer[i], longer[i + 1]) in edges {
      if i > 0 {
        assert longer[i] == path[i - 1] && longer[i + 1] == path[i];
      }
    }
    assert Joins(edges, longer, a, b);
  }

  lemma ReachTransitive(edges: set<Edge>, a: nat, m: nat, b: nat)
    requires Reaches(edges, a, m) && Reaches(edges, m, b)
    ensures Reaches(edges, a, b)
  {
    var front :| Joins(edges, front, a, m);
    var back :| Joins(edges, back, m, b);
    var path := front + back[1..];
    forall i | 0 <= i < |path| - 1 ensures (path[i], path[i + 1]) in edges {
      if i >= |front| - 1 {
        var j := i - (|front| - 1);
        assert path[i] == back[j] && path[i + 1] == back[j + 1];
      }
    }
    assert Joins(edges, path, a, b);
  }

  /** The last edge of a walk: whatever is reached is a child of the start or
      of something reached before it. */
  lemma LastEdge(edges: set<Edge>, a: nat, b: nat) returns (m: nat)
    requires Reaches(edges, a, b)
    ensures (m, b) in edges
    ensures m == a || Reaches(edges, a, m)
  {
    var path :| Joins(edges, path, a, b);
    m := path[|path| - 2];
    if |path| > 2 {
      assert Joins(edges, path[..|path| - 1], a, m);
    }
  }

  lemma ReachMonotone(small: set<Edge>, large: set<Edge>, a: nat, b: nat)
    requires small <= large && Reaches(small, a, b)
    ensures Reaches(large, a, b)
  {
    var path :| Joins(small, path, a, b);
    assert Joins(large, path, a, b);
  }
}
