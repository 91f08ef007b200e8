/** The workflow algebra: what `chain`, `group` and `chord` build, and what
    their nesting means.

    A composition is read as an order on its tasks, numbered from left to right
    as they are written. Building it yields a graph. The two agree exactly: one
    task lies upstream of another in the graph if and only if the composition
    says it comes first. */
module Composition {
  import opened Graph
  import opened JobTable

  /** Jobs and the edges between them, by position. */
  datatype Flow = Flow(nodes: seq<Node>, edges: set<Edge>)

  const EmptyFlow := Flow([], {})

  function Single(node: Node): Flow {
    Flow([node], {})
  }

  ghost predicate InRange(flow: Flow) {
    forall e :: e in flow.edges ==> e.0 < |flow.nodes| && e.1 < |flow.nodes|
  }

  /** The shape of everything the constructors build. */
  ghost predicate Composed(flow: Flow) {
    InRange(flow) && Forward(flow.edges)
  }

  predicate Parentless(edges: set<Edge>, i: nat) {
    forall e :: e in edges ==> e.1 != i
  }

  predicate Childless(edges: set<Edge>, i: nat) {
    forall e :: e in edges ==> e.0 != i
  }

  function Roots(flow: Flow): set<nat> {
    set i: nat | i < |flow.nodes| && Parentless(flow.edges, i)
  }

  function Leaves(flow: Flow): set<nat> {
    set i: nat | i < |flow.nodes| && Childless(flow.edges, i)
  }

  function Shift(edges: set<Edge>, offset: nat): set<Edge> {
    set e | e in edges :: (e.0 + offset, e.1 + offset)
  }

  function ShiftNodes(nodes: set<nat>, offset: nat): set<nat> {
    set i | i in nodes :: i + offset
  }

  /** Another graph copied in beside the first. */
  function Beside(flow: Flow, other: Flow): Flow {
    Flow(flow.nodes + other.nodes, flow.edges + Shift(other.edges, |flow.nodes|))
  }

  function Pairs(tails: set<nat>, heads: set<nat>): set<Edge> {
    set t, h | t in tails && h in heads :: (t, h)
  }

  /** Another graph copied in with every tail a parent of its every root. */
  function Linked(flow: Flow, tails: set<nat>, other: Flow): Flow {
    var both := Beside(flow, other);
    both.(edges := both.edges + Pairs(tails, ShiftNodes(Roots(other), |flow.nodes|)))
  }

  function Then(flow: Flow, other: Flow): Flow {
    if other.nodes == [] then flow else Linked(flow, Leaves(flow), other)
  }

  // ---- reachability in the two ways of combining ---------------------------

  lemma ShiftedEdge(edges: set<Edge>, offset: nat, i: nat, j: nat)
    ensures (i + offset, j + offset) in Shift(edges, offset) <==> (i, j) in edges
  {
    if (i, j) in edges {
      assert (i, j) in edges && ((i, j).0 + offset, (i, j).1 + offset) == (i + offset, j + offset);
    }
  }

  /** Which edges a combination has, by which side their ends lie on. */
  ghost predicate Combines(flow: Flow, other: Flow, cross: set<Edge>, both: Flow) {
    var k := |flow.nodes|;
    && both.nodes == flow.nodes + other.nodes
    && (forall i: nat, j: nat :: i < k && j < k ==> ((i, j) in both.edges <==> (i, j) in flow.edges))
    && (forall i: nat, j: nat :: i >= k && j >= k ==> ((i, j) in both.edges <==> (i - k, j - k) in other.edges))
    && (forall i: nat, j: nat :: i < k && j >= k ==> ((i, j) in both.edges <==> (i, j) in cross))
    && (forall i: nat, j: nat :: i >= k && j < k ==> (i, j) !in both.edges)
  }

  lemma LinkedCombines(flow: Flow, tails: set<nat>, other: Flow)
    requires InRange(flow) && InRange(other)
    requires forall t :: t in tails ==> t < |flow.nodes|
    ensures Combines(flow, other, Pairs(tails, ShiftNodes(Roots(other), |flow.nodes|)), Linked(flow, tails, other))
    ensures InRange(Linked(flow, tails, other))
    ensures Composed(flow) && Composed(other) ==> Composed(Linked(flow, tails, other))
  {
    var k := |flow.nodes|;
    var both := Linked(flow, tails, other);
    var cross := Pairs(tails, ShiftNodes(Roots(other), k));
    forall i: nat, j: nat | (i, j) in cross ensures i < k <= j < k + |other.nodes| {
      CrossEnds(flow, tails, other, i, j);
    }
    forall i: nat, j: nat ensures CombinesAt(flow, other, cross, both, i, j) {
      LinkedEdge(flow, tails, other, i, j);
    }
    EachCombines(flow, other, cross, both);
    CombinedInRange(flow, other, cross, both);
  }

  predicate CombinesAt(flow: Flow, other: Flow, cross: set<Edge>, both: Flow, i: nat, j: nat) {
    var k := |flow.nodes|;
    (i, j) in both.edges <==>
      (i, j) in flow.edges || (i, j) in cross || (i >= k && j >= k && (i - k, j - k) in other.edges)
  }

  lemma EachCombines(flow: Flow, other: Flow, cross: set<Edge>, both: Flow)
    requires InRange(flow) && both.nodes == flow.nodes + other.nodes
    requires forall i: nat, j: nat :: (i, j) in cross ==> i < |flow.nodes| <= j
    requires forall i: nat, j: nat :: CombinesAt(flow, other, cross, both, i, j)
    ensures Combines(flow, other, cross, both)
  {
    var k := |flow.nodes|;
    forall i: nat, j: nat | i < k && j < k ensures (i, j) in both.edges <==> (i, j) in flow.edges {
      assert CombinesAt(flow, other, cross, both, i, j);
    }
    forall i: nat, j: nat | i >= k && j >= k ensures (i, j) in both.edges <==> (i - k, j - k) in other.edges {
      assert CombinesAt(flow, other, cross, both, i, j);
    }
    forall i: nat, j: nat | i < k && j >= k ensures (i, j) in both.edges <==> (i, j) in cross {
      assert CombinesAt(flow, other, cross, both, i, j);
    }
    forall i: nat, j: nat | i >= k && j < k ensures (i, j) !in both.edges {
      assert CombinesAt(flow, other, cross, both, i, j);
    }
  }

  lemma CombinedInRange(flow: Flow, other: Flow, cross: set<Edge>, both: Flow)
    requires InRange(flow) && InRange(other) && Combines(flow, other, cross, both)
    requires forall i: nat, j: nat :: (i, j) in cross ==> i < |flow.nodes| <= j < |flow.nodes| + |other.nodes|
    ensures InRange(both)
    ensures Composed(flow) && Composed(other) ==> Composed(both)
  {
    var k := |flow.nodes|;
    forall e | e in both.edges
      ensures e.0 < |both.nodes| && e.1 < |both.nodes|
      ensures Composed(flow) && Composed(other) ==> e.0 < e.1
    {
      assert (e.0, e.1) in both.edges;
      if e.0 >= k && e.1 >= k {
        assert (e.0 - k, e.1 - k) in other.edges;
      } else if e.0 < k && e.1 < k {
        assert (e.0, e.1) in flow.edges;
      } else {
        assert (e.0, e.1) in cross;
      }
    }
  }

  lemma CrossEnds(flow: Flow, tails: set<nat>, other: Flow, i: nat, j: nat)
    requires (i, j) in Pairs(tails, ShiftNodes(Roots(other), |flow.nodes|))
    ensures i in tails && |flow.nodes| <= j < |flow.nodes| + |other.nodes|
  {}

  lemma LinkedEdge(flow: Flow, tails: set<nat>, other: Flow, i: nat, j: nat)
    ensures var k := |flow.nodes|;
            (i, j) in Linked(flow, tails, other).edges <==>
              || (i, j) in flow.edges
              || (i, j) in Pairs(tails, ShiftNodes(Roots(other), k))
              || (i >= k && j >= k && (i - k, j - k) in other.edges)
  {
    var k := |flow.nodes|;
    if i >= k && j >= k {
      ShiftedEdge(other.edges, k, i - k, j - k);
    }
    if (i, j) in Shift(other.edges, k) {
      var e :| e in other.edges && (i, j) == (e.0 + k, e.1 + k);
      assert (i - k, j - k) == e;
    }
  }

  lemma BesideCombines(flow: Flow, other: Flow)
    requires InRange(flow) && InRange(other)
    ensures Combines(flow, other, {}, Beside(flow, other))
    ensures InRange(Beside(flow, other))
    ensures Composed(flow) && Composed(other) ==> Composed(Beside(flow, other))
  {
    assert Pairs({}, ShiftNodes(Roots(other), |flow.nodes|)) == {};
    assert Linked(flow, {}, other) == Beside(flow, other);
    LinkedCombines(flow, {}, other);
  }

  /** A walk that ends on the left never left it. */
  lemma {:induction false} WalkOnTheLeft(flow: Flow, other: Flow, cross: set<Edge>, both: Flow, path: seq<nat>)
    requires Combines(flow, other, cross, both) && IsPath(both.edges, path) && path[|path| - 1] < |flow.nodes|
    ensures IsPath(flow.edges, path)
    ensures path[0] < |flow.nodes|
    decreases |path|
  {
    var n := |path| - 1;
    assert (path[n - 1], path[n]) in both.edges;
    assert path[n - 1] < |flow.nodes|;
    if n > 1 {
      WalkOnTheLeft(flow, other, cross, both, path[..n]);
      forall i | 0 <= i < n ensures (path[i], path[i + 1]) in flow.edges {
        if i < n - 1 {
          assert (path[..n][i], path[..n][i + 1]) in flow.edges;
        }
      }
    }
  }

  /** A walk that starts on the right stays there. */
  lemma {:induction false} WalkOnTheRight(flow: Flow, other: Flow, cross: set<Edge>, both: Flow, path: seq<nat>)
    requires Combines(flow, other, cross, both) && IsPath(both.edges, path) && path[0] >= |flow.nodes|
    ensures forall i :: 0 <= i < |path| ==> path[i] >= |flow.nodes|
    decreases |path|
  {
    var n := |path| - 1;
    if n > 1 {
      WalkOnTheRight(flow, other, cross, both, path[..n]);
      assert path[n - 1] == path[..n][n - 1];
    }
    assert (path[n - 1], path[n]) in both.edges;
  }

  lemma LeftReach(flow: Flow, other: Flow, cross: set<Edge>, both: Flow, i: nat, j: nat)
    requires InRange(flow) && Combines(flow, other, cross, both) && j < |flow.nodes|
    ensures Reaches(both.edges, i, j) <==> Reaches(flow.edges, i, j)
  {
    if Reaches(both.edges, i, j) {
      var path :| Joins(both.edges, path, i, j);
      WalkOnTheLeft(flow, other, cross, both, path);
      assert Joins(flow.edges, path, i, j);
    }
    if Reaches(flow.edges, i, j) {
      assert flow.edges <= both.edges;
      ReachMonotone(flow.edges, both.edges, i, j);
    }
  }

  lemma RightReach(flow: Flow, other: Flow, cross: set<Edge>, both: Flow, i: nat, j: nat)
    requires Combines(flow, other, cross, both)
    ensures Reaches(both.edges, i + |flow.nodes|, j + |flow.nodes|) <==> Reaches(other.edges, i, j)
  {
    var k := |flow.nodes|;
    if Reaches(both.edges, i + k, j + k) {
      var path :| Joins(both.edges, path, i + k, j + k);
      WalkOnTheRight(flow, other, cross, both, path);
      var local: seq<nat> := seq(|path|, n requires 0 <= n < |path| => path[n] - k);
      forall n | 0 <= n < |local| - 1 ensures (local[n], local[n + 1]) in other.edges {
        assert (path[n], path[n + 1]) in both.edges;
      }
      assert Joins(other.edges, local, i, j);
    }
    if Reaches(other.edges, i, j) {
      var path :| Joins(other.edges, path, i, j);
      var wide: seq<nat> := seq(|path|, n requires 0 <= n < |path| => path[n] + k);
      forall n | 0 <= n < |wide| - 1 ensures (wide[n], wide[n + 1]) in both.edges {
        assert (path[n], path[n + 1]) in other.edges;
        assert (wide[n], wide[n + 1]) in both.edges <==> (wide[n] - k, wide[n + 1] - k) in other.edges;
      }
      assert Joins(both.edges, wide, i + k, j + k);
    }
  }

  /** Without cross edges nothing on the left reaches the right. */
  lemma {:induction false} NoCrossing(flow: Flow, other: Flow, both: Flow, path: seq<nat>)
    requires Combines(flow, other, {}, both) && IsPath(both.edges, path) && path[0] < |flow.nodes|
    ensures path[|path| - 1] < |flow.nodes|
    decreases |path|
  {
    var n := |path| - 1;
    if n > 1 {
      NoCrossing(flow, other, both, path[..n]);
    }
    assert (path[n - 1], path[n]) in both.edges;
  }

  /** Going down from any node of a composed graph ends in a leaf. */
  lemma {:induction false} LeafBelow(flow: Flow, i: nat) returns (leaf: nat)
    requires Composed(flow) && i < |flow.nodes|
    ensures leaf in Leaves(flow) && (leaf == i || Reaches(flow.edges, i, leaf))
    decreases |flow.nodes| - i
  {
    if i in Leaves(flow) {
      leaf := i;
    } else {
      var e :| e in flow.edges && e.0 == i;
      leaf := LeafBelow(flow, e.1);
      EdgeReaches(flow.edges, i, e.1);
      if leaf != e.1 {
        ReachPrepends(flow.edges, i, e.1, leaf);
      }
    }
  }

  lemma {:induction false} RootAbove(flow: Flow, j: nat) returns (root: nat)
    requires Composed(flow) && j < |flow.nodes|
    ensures root in Roots(flow) && (root == j || Reaches(flow.edges, root, j))
    decreases j
  {
    if j in Roots(flow) {
      root := j;
    } else {
      var e :| e in flow.edges && e.1 == j;
      root := RootAbove(flow, e.0);
      EdgeReaches(flow.edges, e.0, j);
      if root != e.0 {
        ReachExtends(flow.edges, root, e.0, j);
      }
    }
  }

  /** With every leaf on the left a parent of every root on the right, every
      node on the left comes before every node on the right. */
  lemma EverythingCrosses(flow: Flow, other: Flow, i: nat, j: nat)
    requires Composed(flow) && Composed(other) && i < |flow.nodes| && j < |other.nodes|
    ensures Reaches(Linked(flow, Leaves(flow), other).edges, i, j + |flow.nodes|)
  {
    var k := |flow.nodes|;
    var both := Linked(flow, Leaves(flow), other);
    var leaf := LeafBelow(flow, i);
    var root := RootAbove(other, j);
    CrossesOnce(flow, other, leaf, root);
    if leaf != i {
      StaysLeft(flow, other, i, leaf);
      ReachTransitive(both.edges, i, leaf, root + k);
    }
    if root != j {
      StaysRight(flow, other, root, j);
      ReachTransitive(both.edges, i, root + k, j + k);
    }
  }

  lemma CrossesOnce(flow: Flow, other: Flow, leaf: nat, root: nat)
    requires leaf in Leaves(flow) && root in Roots(other)
    ensures Reaches(Linked(flow, Leaves(flow), other).edges, leaf, root + |flow.nodes|)
  {
    var cross := Pairs(Leaves(flow), ShiftNodes(Roots(other), |flow.nodes|));
    assert (leaf, root + |flow.nodes|) in cross;
    EdgeReaches(Linked(flow, Leaves(flow), other).edges, leaf, root + |flow.nodes|);
  }

  lemma StaysLeft(flow: Flow, other: Flow, i: nat, j: nat)
    requires Composed(flow) && Composed(other) && i < |flow.nodes| && j < |flow.nodes| && Reaches(flow.edges, i, j)
    ensures Reaches(Linked(flow, Leaves(flow), other).edges, i, j)
  {
    var cross := Pairs(Leaves(flow), ShiftNodes(Roots(other), |flow.nodes|));
    LinkedCombines(flow, Leaves(flow), other);
    LeftReach(flow, other, cross, Linked(flow, Leaves(flow), other), i, j);
  }

  lemma StaysRight(flow: Flow, other: Flow, i: nat, j: nat)
    requires Composed(flow) && Composed(other) && i < |other.nodes| && j < |other.nodes| && Reaches(other.edges, i, j)
    ensures Reaches(Linked(flow, Leaves(flow), other).edges, i + |flow.nodes|, j + |flow.nodes|)
  {
    var cross := Pairs(Leaves(flow), ShiftNodes(Roots(other), |flow.nodes|));
    LinkedCombines(flow, Leaves(flow), other);
    RightReach(flow, other, cross, Linked(flow, Leaves(flow), other), i, j);
  }

  // ---- compositions and what they mean -------------------------------------

  datatype Comp =
    | Task(node: Node)
    | Chain(steps: seq<Comp>)
    | Group(branches: seq<Comp>)
    | Chord(body: Comp, callback: Node)

  /** The tasks of a composition, from left to right as they are written. */
  function Tasks(c: Comp): seq<Node>
    decreases c, 1
  {
    match c
    case Task(node) => [node]
    case Chain(steps) => TasksOf(steps)
    case Group(branches) => TasksOf(branches)
    case Chord(body, callback) => Tasks(body) + [callback]
  }

  function TasksOf(cs: seq<Comp>): seq<Node>
    decreases cs, 0
  {
    if cs == [] then [] else TasksOf(cs[..|cs| - 1]) + Tasks(cs[|cs| - 1])
  }

  function Size(c: Comp): nat
    decreases c, 1
  {
    match c
    case Task(_) => 1
    case Chain(steps) => SizeAll(steps)
    case Group(branches) => SizeAll(branches)
    case Chord(body, _) => Size(body) + 1
  }

  function SizeAll(cs: seq<Comp>): nat
    decreases cs, 0
  {
    if cs == [] then 0 else SizeAll(cs[..|cs| - 1]) + Size(cs[|cs| - 1])
  }

  /** The order a composition promises between its i-th and j-th task: each
      step of a chain after the whole of the step before it, the branches of a
      group in no order, the callback of a chord after its whole body. */
  predicate Precedes(c: Comp, i: nat, j: nat)
    decreases c, 1
  {
    match c
    case Task(_) => false
    case Chain(steps) => PrecedesAmong(steps, true, i, j)
    case Group(branches) => PrecedesAmong(branches, false, i, j)
    case Chord(body, _) => if j == Size(body) then i < Size(body) else Precedes(body, i, j)
  }

  predicate PrecedesAmong(cs: seq<Comp>, inTurn: bool, i: nat, j: nat)
    decreases cs, 0
  {
    if cs == [] then false else
    var k := SizeAll(cs[..|cs| - 1]);
    var last := cs[|cs| - 1];
    if j < k then PrecedesAmong(cs[..|cs| - 1], inTurn, i, j)
    else if i < k then inTurn && j < k + Size(last)
    else Precedes(last, i - k, j - k)
  }

  // ---- what the constructors build -----------------------------------------

  function Build(c: Comp): Flow
    decreases c, 1
  {
    match c
    case Task(node) => Single(node)
    case Chain(steps) => BuildChain(steps)
    case Group(branches) => BuildGroup(branches)
    case Chord(body, callback) => Then(Build(body), Single(callback))
  }

  function BuildChain(cs: seq<Comp>): Flow
    decreases cs, 0
  {
    if cs == [] then EmptyFlow else Then(BuildChain(cs[..|cs| - 1]), Build(cs[|cs| - 1]))
  }

  function BuildGroup(cs: seq<Comp>): Flow
    decreases cs, 0
  {
    if cs == [] then EmptyFlow else Beside(BuildGroup(cs[..|cs| - 1]), Build(cs[|cs| - 1]))
  }

  lemma NoReachOutside(flow: Flow, i: nat, j: nat)
    requires InRange(flow) && Reaches(flow.edges, i, j)
    ensures i < |flow.nodes| && j < |flow.nodes|
  {
    var path :| Joins(flow.edges, path, i, j);
    assert (path[0], path[1]) in flow.edges;
    assert (path[|path| - 2], path[|path| - 1]) in flow.edges;
  }

  lemma EmptyReach(i: nat, j: nat)
    ensures !Reaches({}, i, j)
  {
    var none: set<Edge> := {};
    forall path: seq<nat> ensures !IsPath(none, path) {
      if |path| >= 2 {
        assert (path[0], path[0 + 1]) !in none;
      }
    }
  }

  lemma ThenMeans(flow: Flow, other: Flow, i: nat, j: nat)
    requires Composed(flow) && Composed(other)
    ensures Composed(Then(flow, other)) && |Then(flow, other).nodes| == |flow.nodes| + |other.nodes|
    ensures var k := |flow.nodes|;
            Reaches(Then(flow, other).edges, i, j) <==>
              if j < k then Reaches(flow.edges, i, j)
              else if i < k then j < k + |other.nodes|
              else Reaches(other.edges, i - k, j - k)
  {
    var k := |flow.nodes|;
    var both := Then(flow, other);
    if other.nodes == [] {
      if Reaches(flow.edges, i, j) {
        NoReachOutside(flow, i, j);
      }
      assert other.edges == {};
      if i >= k && j >= k {
        EmptyReach(i - k, j - k);
      }
    } else {
      var cross := Pairs(Leaves(flow), ShiftNodes(Roots(other), k));
      LinkedCombines(flow, Leaves(flow), other);
      if j < k {
        LeftReach(flow, other, cross, both, i, j);
      } else if i < k {
        if Reaches(both.edges, i, j) {
          NoReachOutside(both, i, j);
        }
        if j < k + |other.nodes| {
          EverythingCrosses(flow, other, i, j - k);
        }
      } else {
        RightReach(flow, other, cross, both, i - k, j - k);
      }
    }
  }

  lemma BesideMeans(flow: Flow, other: Flow, i: nat, j: nat)
    requires Composed(flow) && Composed(other)
    ensures Composed(Beside(flow, other)) && |Beside(flow, other).nodes| == |flow.nodes| + |other.nodes|
    ensures var k := |flow.nodes|;
            Reaches(Beside(flow, other).edges, i, j) <==>
              if j < k then Reaches(flow.edges, i, j)
              else i >= k && Reaches(other.edges, i - k, j - k)
  {
    var k := |flow.nodes|;
    var both := Beside(flow, other);
    BesideCombines(flow, other);
    if j < k {
      LeftReach(flow, other, {}, both, i, j);
    } else if i < k {
      if Reaches(both.edges, i, j) {
        var path :| Joins(both.edges, path, i, j);
        NoCrossing(flow, other, both, path);
      }
    } else {
      RightReach(flow, other, {}, both, i - k, j - k);
    }
  }

  /** The algebra's theorem: for any nesting of chains, groups and chords, the
      graph built puts one task upstream of another exactly when the
      composition says it comes first. */
  lemma {:induction false} BuildMeans(c: Comp, i: nat, j: nat)
    ensures |Build(c).nodes| == Size(c) && Composed(Build(c))
    ensures Reaches(Build(c).edges, i, j) <==> Precedes(c, i, j)
    decreases c, 1
  {
    match c
    case Task(node) => EmptyReach(i, j);
    case Chain(steps) => ChainMeans(steps, i, j);
    case Group(branches) => GroupMeans(branches, i, j);
    case Chord(body, callback) =>
      var k := Size(body);
      BuildMeans(body, i, j);
      ThenMeans(Build(body), Single(callback), i, j);
      if j >= k {
        if i >= k {
          EmptyReach(i - k, j - k);
        }
        if j > k {
          if Reaches(Build(body).edges, i, j) {
            NoReachOutside(Build(body), i, j);
          }
        }
      }
  }

  lemma {:induction false} ChainMeans(cs: seq<Comp>, i: nat, j: nat)
    ensures |BuildChain(cs).nodes| == SizeAll(cs) && Composed(BuildChain(cs))
    ensures Reaches(BuildChain(cs).edges, i, j) <==> PrecedesAmong(cs, true, i, j)
    decreases cs, 0
  {
    if cs == [] {
      EmptyReach(i, j);
    } else {
      var k := SizeAll(cs[..|cs| - 1]);
      var last := cs[|cs| - 1];
      ChainMeans(cs[..|cs| - 1], i, j);
      BuildMeans(last, if i >= k then i - k else 0, if j >= k then j - k else 0);
      ThenMeans(BuildChain(cs[..|cs| - 1]), Build(last), i, j);
    }
  }

  lemma {:induction false} GroupMeans(cs: seq<Comp>, i: nat, j: nat)
    ensures |BuildGroup(cs).nodes| == SizeAll(cs) && Composed(BuildGroup(cs))
    ensures Reaches(BuildGroup(cs).edges, i, j) <==> PrecedesAmong(cs, false, i, j)
    decreases cs, 0
  {
    if cs == [] {
      EmptyReach(i, j);
    } else {
      var before, last := cs[..|cs| - 1], cs[|cs| - 1];
      var k := SizeAll(before);
      GroupMeans(before, i, j);
      BuildMeans(last, if i >= k then i - k else 0, if j >= k then j - k else 0);
      BesideMeans(BuildGroup(before), Build(last), i, j);
      GroupStep(cs, before, last, i, j);
    }
  }

  lemma GroupStep(cs: seq<Comp>, before: seq<Comp>, last: Comp, i: nat, j: nat)
    requires cs != [] && before == cs[..|cs| - 1] && last == cs[|cs| - 1]
    ensures BuildGroup(cs) == Beside(BuildGroup(before), Build(last)) && SizeAll(cs) == SizeAll(before) + Size(last)
    ensures var k := SizeAll(before);
            PrecedesAmong(cs, false, i, j) <==>
              if j < k then PrecedesAmong(before, false, i, j) else i >= k && Precedes(last, i - k, j - k)
  {}

  // ---- which task stands where ---------------------------------------------

  /** Every task is in the graph as it was written, at its place. */
  lemma {:induction false} BuildKeepsTasks(c: Comp)
    ensures Build(c).nodes == Tasks(c) && |Tasks(c)| == Size(c)
    decreases c, 1
  {
    match c
    case Task(_) =>
    case Chain(steps) => ChainKeepsTasks(steps);
    case Group(branches) => GroupKeepsTasks(branches);
    case Chord(body, _) => BuildKeepsTasks(body);
  }

  lemma {:induction false} ChainKeepsTasks(cs: seq<Comp>)
    ensures BuildChain(cs).nodes == TasksOf(cs) && |TasksOf(cs)| == SizeAll(cs)
    decreases cs, 0
  {
    if cs != [] {
      ChainKeepsTasks(cs[..|cs| - 1]);
      BuildKeepsTasks(cs[|cs| - 1]);
    }
  }

  lemma {:induction false} GroupKeepsTasks(cs: seq<Comp>)
    ensures BuildGroup(cs).nodes == TasksOf(cs) && |TasksOf(cs)| == SizeAll(cs)
    decreases cs, 0
  {
    if cs != [] {
      GroupKeepsTasks(cs[..|cs| - 1]);
      BuildKeepsTasks(cs[|cs| - 1]);
    }
  }
}
