/** The edges a composition is built with are no more than its order needs: one
    task is a direct parent of another exactly when it comes before it with nothing
    in between. So each row waits for its immediate predecessors and nobody else. */
module Covers {
  import opened Graph
  import opened Composition

  /** A node strictly between two others. */
  ghost predicate Between(edges: set<Edge>, i: nat, m: nat, j: nat) {
    Reaches(edges, i, m) && Reaches(edges, m, j)
  }

  ghost predicate Roomy(edges: set<Edge>, i: nat, j: nat) {
    exists m :: Between(edges, i, m, j)
  }

  ghost predicate CoverAt(flow: Flow, i: nat, j: nat) {
    (i, j) in flow.edges <==> Reaches(flow.edges, i, j) && !Roomy(flow.edges, i, j)
  }

  ghost predicate Reduced(flow: Flow) {
    Composed(flow) && forall i: nat, j: nat :: CoverAt(flow, i, j)
  }

  // ---- one graph after another ---------------------------------------------

  lemma ThenCoversLeft(flow: Flow, other: Flow, i: nat, j: nat)
    requires Reduced(flow) && Composed(other) && other.nodes != [] && j < |flow.nodes|
    ensures CoverAt(Then(flow, other), i, j)
  {
    var both := Then(flow, other);
    LinkedCombines(flow, Leaves(flow), other);
    ThenMeans(flow, other, i, j);
    forall m: nat ensures Between(both.edges, i, m, j) <==> Between(flow.edges, i, m, j) {
      ThenMeans(flow, other, i, m);
      ThenMeans(flow, other, m, j);
      if Reaches(flow.edges, m, j) {
        NoReachOutside(flow, m, j);
      }
    }
    assert CoverAt(flow, i, j);
    if i >= |flow.nodes| && Reaches(flow.edges, i, j) {
      NoReachOutside(flow, i, j);
    }
  }

  lemma RoomyShifted(both: set<Edge>, edges: set<Edge>, k: nat, i: nat, j: nat)
    requires i >= k && j >= k
    requires forall m: nat :: Between(both, i, m, j) <==> m >= k && Between(edges, i - k, m - k, j - k)
    ensures Roomy(both, i, j) <==> Roomy(edges, i - k, j - k)
  {
    var a, b := i - k, j - k;
    if Roomy(edges, a, b) {
      var m: nat :| Between(edges, a, m, b);
      var n := m + k;
      assert n - k == m;
      assert Between(both, i, n, j);
    }
  }

  lemma ThenCoversRight(flow: Flow, other: Flow, i: nat, j: nat)
    requires Composed(flow) && Reduced(other) && other.nodes != []
    requires i >= |flow.nodes| && j >= |flow.nodes|
    ensures CoverAt(Then(flow, other), i, j)
  {
    var k := |flow.nodes|;
    var both := Then(flow, other);
    LinkedCombines(flow, Leaves(flow), other);
    ThenMeans(flow, other, i, j);
    forall m: nat ensures Between(both.edges, i, m, j) <==> m >= k && Between(other.edges, i - k, m - k, j - k) {
      ThenMeans(flow, other, i, m);
      ThenMeans(flow, other, m, j);
      if m < k && Reaches(flow.edges, i, m) {
        NoReachOutside(flow, i, m);
      }
    }
    assert CoverAt(other, i - k, j - k);
    RoomyShifted(both.edges, other.edges, k, i, j);
  }

  lemma ThenCoversAcross(flow: Flow, other: Flow, i: nat, j: nat)
    requires Composed(flow) && Composed(other) && other.nodes != []
    requires i < |flow.nodes| <= j < |flow.nodes| + |other.nodes|
    ensures CoverAt(Then(flow, other), i, j)
  {
    var k := |flow.nodes|;
    var both := Then(flow, other);
    AcrossEdge(flow, other, i, j);
    ThenMeans(flow, other, i, j);
    if i !in Leaves(flow) {
      LeavesRoom(flow, other, i, j);
    } else if j - k !in Roots(other) {
      RootsRoom(flow, other, i, j);
    } else {
      forall m: nat ensures !Between(both.edges, i, m, j) {
        NothingAcross(flow, other, i, m, j);
      }
    }
  }

  lemma AcrossEdge(flow: Flow, other: Flow, i: nat, j: nat)
    requires Composed(flow) && Composed(other) && other.nodes != [] && i < |flow.nodes| <= j
    ensures (i, j) in Then(flow, other).edges <==> i in Leaves(flow) && j - |flow.nodes| in Roots(other)
  {
    LinkedCombines(flow, Leaves(flow), other);
    CrossEdge(flow, other, i, j - |flow.nodes|);
  }

  lemma CrossEdge(flow: Flow, other: Flow, i: nat, j: nat)
    ensures (i, j + |flow.nodes|) in Pairs(Leaves(flow), ShiftNodes(Roots(other), |flow.nodes|)) <==>
              i in Leaves(flow) && j in Roots(other)
  {}

  /** A node with a child of its own has that child on the way. */
  lemma LeavesRoom(flow: Flow, other: Flow, i: nat, j: nat)
    requires Composed(flow) && Composed(other) && other.nodes != []
    requires i < |flow.nodes| <= j < |flow.nodes| + |other.nodes| && i !in Leaves(flow)
    ensures Roomy(Then(flow, other).edges, i, j)
  {
    var e :| e in flow.edges && e.0 == i;
    EdgeReaches(flow.edges, i, e.1);
    ThenMeans(flow, other, i, e.1);
    ThenMeans(flow, other, e.1, j);
    assert Between(Then(flow, other).edges, i, e.1, j);
  }

  lemma RootsRoom(flow: Flow, other: Flow, i: nat, j: nat)
    requires Composed(flow) && Composed(other) && other.nodes != []
    requires i < |flow.nodes| <= j < |flow.nodes| + |other.nodes| && j - |flow.nodes| !in Roots(other)
    ensures Roomy(Then(flow, other).edges, i, j)
  {
    var k := |flow.nodes|;
    var e :| e in other.edges && e.1 == j - k;
    EdgeReaches(other.edges, e.0, j - k);
    ThenMeans(flow, other, i, e.0 + k);
    ThenMeans(flow, other, e.0 + k, j);
    assert Between(Then(flow, other).edges, i, e.0 + k, j);
  }

  lemma NothingAcross(flow: Flow, other: Flow, i: nat, m: nat, j: nat)
    requires Composed(flow) && Composed(other) && other.nodes != []
    requires i < |flow.nodes| <= j && i in Leaves(flow) && j - |flow.nodes| in Roots(other)
    ensures !Between(Then(flow, other).edges, i, m, j)
  {
    var k := |flow.nodes|;
    ThenMeans(flow, other, i, m);
    ThenMeans(flow, other, m, j);
    if m < k {
      LeafEnds(flow, i, m);
    } else {
      RootBegins(other, m - k, j - k);
    }
  }

  lemma LeafEnds(flow: Flow, i: nat, m: nat)
    ensures Reaches(flow.edges, i, m) ==> !Childless(flow.edges, i)
  {
    if Reaches(flow.edges, i, m) {
      var path :| Joins(flow.edges, path, i, m);
      assert (path[0], path[1]) in flow.edges;
    }
  }

  lemma RootBegins(flow: Flow, m: nat, j: nat)
    ensures Reaches(flow.edges, m, j) ==> !Parentless(flow.edges, j)
  {
    if Reaches(flow.edges, m, j) {
      var path :| Joins(flow.edges, path, m, j);
      assert (path[|path| - 2], path[|path| - 1]) in flow.edges;
    }
  }

  lemma NoCoverOutside(flow: Flow, i: nat, j: nat)
    requires Composed(flow) && (i >= |flow.nodes| || j >= |flow.nodes|)
    ensures CoverAt(flow, i, j)
  {
    if Reaches(flow.edges, i, j) {
      NoReachOutside(flow, i, j);
    }
  }

  lemma ThenReduces(flow: Flow, other: Flow)
    requires Reduced(flow) && Reduced(other)
    ensures Reduced(Then(flow, other))
  {
    ThenMeans(flow, other, 0, 0);
    if other.nodes != [] {
      forall i: nat, j: nat ensures CoverAt(Then(flow, other), i, j) {
        if j < |flow.nodes| {
          ThenCoversLeft(flow, other, i, j);
        } else if i >= |flow.nodes| {
          ThenCoversRight(flow, other, i, j);
        } else if j < |flow.nodes| + |other.nodes| {
          ThenCoversAcross(flow, other, i, j);
        } else {
          NoCoverOutside(Then(flow, other), i, j);
        }
      }
    }
  }

  // ---- one graph beside another --------------------------------------------

  lemma BesideCovers(flow: Flow, other: Flow, i: nat, j: nat)
    requires Reduced(flow) && Reduced(other)
    ensures CoverAt(Beside(flow, other), i, j)
  {
    var k := |flow.nodes|;
    var both := Beside(flow, other);
    BesideCombines(flow, other);
    BesideMeans(flow, other, i, j);
    if j < k {
      forall m: nat ensures Between(both.edges, i, m, j) <==> Between(flow.edges, i, m, j) {
        BesideMeans(flow, other, i, m);
        BesideMeans(flow, other, m, j);
        if Reaches(flow.edges, m, j) {
          NoReachOutside(flow, m, j);
        }
      }
      assert CoverAt(flow, i, j);
      if i >= k && Reaches(flow.edges, i, j) {
        NoReachOutside(flow, i, j);
      }
    } else if i >= k {
      BesideCoversRight(flow, other, i, j);
    }
  }

  lemma BesideCoversRight(flow: Flow, other: Flow, i: nat, j: nat)
    requires Reduced(flow) && Reduced(other) && i >= |flow.nodes| && j >= |flow.nodes|
    ensures CoverAt(Beside(flow, other), i, j)
  {
    var k := |flow.nodes|;
    var both := Beside(flow, other);
    BesideCombines(flow, other);
    BesideMeans(flow, other, i, j);
    forall m: nat ensures Between(both.edges, i, m, j) <==> m >= k && Between(other.edges, i - k, m - k, j - k) {
      BesideMeans(flow, other, i, m);
      BesideMeans(flow, other, m, j);
      if m < k && Reaches(flow.edges, i, m) {
        NoReachOutside(flow, i, m);
      }
    }
    assert CoverAt(other, i - k, j - k);
    RoomyShifted(both.edges, other.edges, k, i, j);
  }

  // ---- every composition ---------------------------------------------------

  lemma BesideReduces(flow: Flow, other: Flow)
    requires Reduced(flow) && Reduced(other)
    ensures Reduced(Beside(flow, other))
  {
    BesideMeans(flow, other, 0, 0);
    forall i: nat, j: nat ensures CoverAt(Beside(flow, other), i, j) {
      BesideCovers(flow, other, i, j);
    }
  }

  lemma NoEdgesReduced(flow: Flow)
    requires flow.edges == {}
    ensures Reduced(flow)
  {
    forall i: nat, j: nat ensures CoverAt(flow, i, j) {
      EmptyReach(i, j);
    }
  }

  lemma {:induction false} BuildReduces(c: Comp)
    ensures Reduced(Build(c))
    decreases c, 1
  {
    match c
    case Task(node) => NoEdgesReduced(Single(node));
    case Chain(steps) => ChainReduces(steps);
    case Group(branches) => GroupReduces(branches);
    case Chord(body, callback) =>
      BuildReduces(body);
      NoEdgesReduced(Single(callback));
      ThenReduces(Build(body), Single(callback));
  }

  lemma {:induction false} ChainReduces(cs: seq<Comp>)
    ensures Reduced(BuildChain(cs))
    decreases cs, 0
  {
    if cs == [] {
      NoEdgesReduced(EmptyFlow);
    } else {
      ChainReduces(cs[..|cs| - 1]);
      BuildReduces(cs[|cs| - 1]);
      ThenReduces(BuildChain(cs[..|cs| - 1]), Build(cs[|cs| - 1]));
    }
  }

  lemma {:induction false} GroupReduces(cs: seq<Comp>)
    ensures Reduced(BuildGroup(cs))
    decreases cs, 0
  {
    if cs == [] {
      NoEdgesReduced(EmptyFlow);
    } else {
      GroupReduces(cs[..|cs| - 1]);
      BuildReduces(cs[|cs| - 1]);
      BesideReduces(BuildGroup(cs[..|cs| - 1]), Build(cs[|cs| - 1]));
    }
  }

  /** One task comes between two others. */
  predicate InBetween(c: Comp, i: nat, m: nat, j: nat) {
    Precedes(c, i, m) && Precedes(c, m, j)
  }

  /** The edges of what is built are exactly the immediate precedences of what is
      written. */
  lemma EdgesAreImmediate(c: Comp, i: nat, j: nat)
    ensures (i, j) in Build(c).edges <==> Precedes(c, i, j) && !exists m: nat :: InBetween(c, i, m, j)
  {
    BuildReduces(c);
    BuildMeans(c, i, j);
    assert CoverAt(Build(c), i, j);
    forall m: nat ensures Between(Build(c).edges, i, m, j) <==> InBetween(c, i, m, j) {
      BuildMeans(c, i, m);
      BuildMeans(c, m, j);
    }
    SameRoom(Build(c).edges, c, i, j);
  }

  lemma SameRoom(edges: set<Edge>, c: Comp, i: nat, j: nat)
    requires forall m: nat :: Between(edges, i, m, j) <==> InBetween(c, i, m, j)
    ensures Roomy(edges, i, j) <==> exists m: nat :: InBetween(c, i, m, j)
  {
    if Roomy(edges, i, j) {
      var m :| Between(edges, i, m, j);
      assert InBetween(c, i, m, j);
    }
    if m: nat :| InBetween(c, i, m, j) {
      assert Between(edges, i, m, j);
    }
  }
}
