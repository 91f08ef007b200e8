/** The workflow objects of the Python library: mutable graphs, and the loops
    of `chain`, `group` and `chord` that fill them. */
module Workflows {
  import opened Graph
  import opened JobTable
  import opened Composition

  // ---- what the loops compute ----------------------------------------------

  /** The nodes the next step of a chain has to wait for. */
  function ChainTails(flows: seq<Flow>): set<nat> {
    if flows == [] then {} else
    var before, last := flows[..|flows| - 1], flows[|flows| - 1];
    if last.nodes == [] then ChainTails(before)
    else ShiftNodes(Leaves(last), |ChainOf(before).nodes|)
  }

  function ChainOf(flows: seq<Flow>): Flow {
    if flows == [] then EmptyFlow else
    var before, last := flows[..|flows| - 1], flows[|flows| - 1];
    if last.nodes == [] then ChainOf(before)
    else Linked(ChainOf(before), ChainTails(before), last)
  }

  function GroupOf(flows: seq<Flow>): Flow {
    if flows == [] then EmptyFlow else Beside(GroupOf(flows[..|flows| - 1]), flows[|flows| - 1])
  }

  function ChordOf(body: Flow, callback: Node): Flow {
    Linked(body, Leaves(body), Single(callback))
  }

  // ---- and that it is the algebra ------------------------------------------

  /** Once every leaf has been given a child, the leaves are those of the part
      added last. */
  lemma LinkedLeaves(flow: Flow, other: Flow)
    requires Composed(flow) && Composed(other) && other.nodes != []
    ensures Leaves(Linked(flow, Leaves(flow), other)) == ShiftNodes(Leaves(other), |flow.nodes|)
  {
    var k := |flow.nodes|;
    var both := Linked(flow, Leaves(flow), other);
    LinkedCombines(flow, Leaves(flow), other);
    forall i: nat | i < k ensures !Childless(both.edges, i) {
      LinkedParents(flow, other, i);
    }
    forall i: nat | i < |other.nodes| ensures Childless(both.edges, i + k) <==> Childless(other.edges, i) {
      RightChildless(flow, other, Pairs(Leaves(flow), ShiftNodes(Roots(other), k)), both, i);
    }
    SameLeaves(flow, other, both);
  }

  lemma LinkedParents(flow: Flow, other: Flow, i: nat)
    requires Composed(flow) && Composed(other) && other.nodes != [] && i < |flow.nodes|
    ensures !Childless(Linked(flow, Leaves(flow), other).edges, i)
  {
    var k := |flow.nodes|;
    var both := Linked(flow, Leaves(flow), other);
    var root := RootAbove(other, 0);
    if Childless(flow.edges, i) {
      assert (i, root + k) in Pairs(Leaves(flow), ShiftNodes(Roots(other), k));
      assert (i, root + k) in both.edges;
    } else {
      var e :| e in flow.edges && e.0 == i;
      assert e in both.edges;
    }
  }

  lemma SameLeaves(flow: Flow, other: Flow, both: Flow)
    requires |both.nodes| == |flow.nodes| + |other.nodes|
    requires forall i: nat :: i < |flow.nodes| ==> !Childless(both.edges, i)
    requires forall i: nat :: i < |other.nodes| ==>
               (Childless(both.edges, i + |flow.nodes|) <==> Childless(other.edges, i))
    ensures Leaves(both) == ShiftNodes(Leaves(other), |flow.nodes|)
  {
    var k := |flow.nodes|;
    forall i | i in Leaves(both) ensures i in ShiftNodes(Leaves(other), k) {
      assert i >= k;
      assert Childless(both.edges, (i - k) + k) <==> Childless(other.edges, i - k);
      assert i - k in Leaves(other);
    }
    forall i | i in Leaves(other) ensures i + k in Leaves(both) {}
  }

  lemma RightChildless(flow: Flow, other: Flow, cross: set<Edge>, both: Flow, i: nat)
    requires Combines(flow, other, cross, both) && InRange(other)
    ensures Childless(both.edges, i + |flow.nodes|) <==> Childless(other.edges, i)
  {
    var k := |flow.nodes|;
    if !Childless(other.edges, i) {
      var e :| e in other.edges && e.0 == i;
      assert (i + k - k, e.1 + k - k) in other.edges;
      assert (i + k, e.1 + k) in both.edges;
    }
    if !Childless(both.edges, i + k) {
      var e :| e in both.edges && e.0 == i + k;
      assert (e.0, e.1) in both.edges;
      assert (e.0 - k, e.1 - k) in other.edges;
    }
  }

  function Built(cs: seq<Comp>): seq<Flow> {
    seq(|cs|, i requires 0 <= i < |cs| => Build(cs[i]))
  }

  /** The loop of `chain`, run on the graphs of its steps, builds the chain. */
  lemma {:induction false} ChainLoopBuilds(cs: seq<Comp>)
    ensures ChainOf(Built(cs)) == BuildChain(cs)
    ensures ChainTails(Built(cs)) == Leaves(BuildChain(cs))
    decreases |cs|
  {
    if cs != [] {
      var before, last := cs[..|cs| - 1], cs[|cs| - 1];
      ChainLoopBuilds(before);
      assert Built(cs)[..|cs| - 1] == Built(before);
      ChainMeans(before, 0, 0);
      BuildMeans(last, 0, 0);
      if Build(last).nodes != [] {
        LinkedLeaves(BuildChain(before), Build(last));
      }
    }
  }

  lemma {:induction false} GroupLoopBuilds(cs: seq<Comp>)
    ensures GroupOf(Built(cs)) == BuildGroup(cs)
    decreases |cs|
  {
    if cs != [] {
      GroupLoopBuilds(cs[..|cs| - 1]);
      assert Built(cs)[..|cs| - 1] == Built(cs[..|cs| - 1]);
    }
  }

  // ---- the objects ---------------------------------------------------------

  class Workflow {
    var nodes: seq<Node>
    var edges: set<Edge>

    function Value(): Flow
      reads this
    {
      Flow(nodes, edges)
    }

    ghost predicate Valid()
      reads this
    {
      InRange(Value())
    }

    constructor (nodes: seq<Node>)
      ensures Value() == Flow(nodes, {}) && Valid()
    {
      this.nodes := nodes;
      this.edges := {};
    }

    /** Copies another graph in, returning its nodes' new indices. */
    method Absorb(other: Workflow) returns (added: seq<nat>)
      requires other != this && Valid() && other.Valid()
      modifies this
      ensures Value() == Beside(old(Value()), other.Value()) && Valid()
      ensures |added| == |other.nodes|
      ensures forall i :: 0 <= i < |added| ==> added[i] == old(|nodes|) + i
    {
      ghost var was := Value();
      var offset := |nodes|;
      nodes := nodes + other.nodes;
      edges := edges + Shift(other.edges, offset);
      var size := |other.nodes|;
      added := seq(size, i requires 0 <= i < size => offset + i);
      BesideCombines(was, other.Value());
    }

    method RootList() returns (roots: seq<nat>)
      ensures forall i :: i in roots <==> i in Roots(Value())
      ensures forall a, b :: 0 <= a < b < |roots| ==> roots[a] < roots[b]
    {
      roots := [];
      for i := 0 to |nodes|
        invariant forall r :: r in roots <==> r < i && r in Roots(Value())
        invariant forall a :: 0 <= a < |roots| ==> roots[a] < i
        invariant forall a, b :: 0 <= a < b < |roots| ==> roots[a] < roots[b]
      {
        if Parentless(edges, i) {
          roots := roots + [i];
        }
      }
    }

    method LeafList() returns (leaves: seq<nat>)
      ensures forall i :: i in leaves <==> i in Leaves(Value())
      ensures forall a, b :: 0 <= a < b < |leaves| ==> leaves[a] < leaves[b]
    {
      leaves := [];
      for i := 0 to |nodes|
        invariant forall r :: r in leaves <==> r < i && r in Leaves(Value())
        invariant forall a :: 0 <= a < |leaves| ==> leaves[a] < i
        invariant forall a, b :: 0 <= a < b < |leaves| ==> leaves[a] < leaves[b]
      {
        if Childless(edges, i) {
          leaves := leaves + [i];
        }
      }
    }

    /** How many parents each node waits for, which is what its row is given. */
    method Dependencies() returns (counts: seq<nat>)
      requires Valid()
      ensures |counts| == |nodes|
      ensures forall i :: 0 <= i < |nodes| ==> counts[i] == InDegree(edges, i)
    {
      counts := seq(|nodes|, _ => 0);
      var left := edges;
      while left != {}
        invariant left <= edges && |counts| == |nodes|
        invariant forall i :: 0 <= i < |nodes| ==> counts[i] == InDegree(edges - left, i)
      {
        var e :| e in left;
        ghost var counted := edges - left;
        forall i | 0 <= i < |nodes|
          ensures InDegree(counted + {e}, i) == InDegree(counted, i) + if e.1 == i then 1 else 0 {
          IntoGrows(counted, e, i);
        }
        counts := counts[e.1 := counts[e.1] + 1];
        left := left - {e};
        assert edges - left == counted + {e};
      }
      assert edges - {} == edges;
    }

    /** Every tail becomes a parent of every head. */
    method Connect(tails: seq<nat>, heads: seq<nat>)
      modifies `edges
      ensures edges == old(edges) + Pairs(SetOf(tails), SetOf(heads))
    {
      ghost var was := edges;
      for i := 0 to |tails|
        invariant edges == was + Pairs(SetOf(tails[..i]), SetOf(heads))
      {
        ghost var outer := edges;
        for j := 0 to |heads|
          invariant edges == outer + Pairs({tails[i]}, SetOf(heads[..j]))
        {
          edges := edges + {(tails[i], heads[j])};
          assert heads[..j + 1] == heads[..j] + [heads[j]];
          assert SetOf(heads[..j + 1]) == SetOf(heads[..j]) + {heads[j]};
          PairsGrow({tails[i]}, SetOf(heads[..j]), heads[j]);
        }
        assert heads[..|heads|] == heads;
        assert tails[..i + 1] == tails[..i] + [tails[i]];
        assert SetOf(tails[..i + 1]) == SetOf(tails[..i]) + {tails[i]};
      }
      assert tails[..|tails|] == tails;
    }
  }

  lemma PairsGrow(tails: set<nat>, heads: set<nat>, h: nat)
    ensures Pairs(tails, heads + {h}) == Pairs(tails, heads) + Pairs(tails, {h})
  {}

  /** What the constructors accept: a task, or a graph built earlier. */
  datatype Item = One(node: Node) | Sub(flow: Workflow) {
    ghost function Footprint(): set<object> {
      if Sub? then {flow} else {}
    }

    ghost function Value(): Flow
      reads Footprint()
    {
      if Sub? then flow.Value() else Single(node)
    }

    ghost predicate Valid()
      reads Footprint()
    {
      Sub? ==> flow.Valid()
    }
  }

  ghost function Objects(items: seq<Item>): set<object> {
    set i, o | 0 <= i < |items| && o in items[i].Footprint() :: o
  }

  ghost predicate AllValid(items: seq<Item>)
    reads Objects(items)
  {
    forall i :: 0 <= i < |items| ==> items[i].Valid()
  }

  ghost function Values(items: seq<Item>): seq<Flow>
    reads Objects(items)
  {
    seq(|items|, i requires 0 <= i < |items| reads Objects(items) => items[i].Value())
  }

  method AsWorkflow(item: Item) returns (flow: Workflow)
    requires item.Valid()
    ensures flow.Value() == item.Value() && flow.Valid()
    ensures if item.Sub? then flow == item.flow else fresh(flow)
  {
    if item.Sub? {
      flow := item.flow;
    } else {
      flow := new Workflow([item.node]);
    }
  }

  /** One round of the loop in `chain`. */
  method Append(flow: Workflow, tails: seq<nat>, step: Item) returns (nextTails: seq<nat>)
    requires flow.Valid() && step.Valid() && flow !in step.Footprint()
    requires forall t :: t in tails ==> t < |flow.nodes|
    modifies flow
    ensures flow.Valid() && forall t :: t in nextTails ==> t < |flow.nodes|
    ensures var sub := old(step.Value());
            if sub.nodes == [] then flow.Value() == old(flow.Value()) && nextTails == tails
            else && flow.Value() == Linked(old(flow.Value()), SetOf(tails), sub)
                 && SetOf(nextTails) == ShiftNodes(Leaves(sub), old(|flow.nodes|))
  {
    var sub := AsWorkflow(step);
    nextTails := tails;
    if sub.nodes != [] {
      var offset := |flow.nodes|;
      var roots := sub.RootList();
      var leaves := sub.LeafList();
      var heads: seq<nat> := seq(|roots|, i requires 0 <= i < |roots| => offset + roots[i]);
      nextTails := seq(|leaves|, i requires 0 <= i < |leaves| => offset + leaves[i]);
      ShiftedList(roots, Roots(sub.Value()), offset, heads);
      ShiftedList(leaves, Leaves(sub.Value()), offset, nextTails);
      LinkedCombines(flow.Value(), SetOf(tails), sub.Value());
      var added := flow.Absorb(sub);
      flow.Connect(tails, heads);
      forall t | t in nextTails ensures t < |flow.nodes| {
        assert t in SetOf(nextTails);
      }
    }
  }

  /** Run each step after the one before it finishes. */
  method Chained(steps: seq<Item>) returns (flow: Workflow)
    requires AllValid(steps)
    ensures fresh(flow) && flow.Valid()
    ensures flow.Value() == ChainOf(Values(steps))
  {
    ghost var values := Values(steps);
    flow := new Workflow([]);
    var tails: seq<nat> := [];
    for k := 0 to |steps|
      invariant fresh(flow) && flow.Valid()
      invariant forall i :: 0 <= i < |steps| ==>
                  flow !in steps[i].Footprint() && steps[i].Valid() && steps[i].Value() == values[i]
      invariant flow.Value() == ChainOf(values[..k])
      invariant SetOf(tails) == ChainTails(values[..k])
      invariant forall t :: t in tails ==> t < |flow.nodes|
    {
      assert values[..k + 1][..k] == values[..k] && values[..k + 1][k] == values[k];
      tails := Append(flow, tails, steps[k]);
    }
    assert values[..|steps|] == values;
    assert Values(steps) == values;
  }

  lemma ShiftedList(list: seq<nat>, members: set<nat>, offset: nat, shifted: seq<nat>)
    requires forall i :: i in list <==> i in members
    requires |shifted| == |list| && forall i :: 0 <= i < |list| ==> shifted[i] == offset + list[i]
    ensures SetOf(shifted) == ShiftNodes(members, offset)
  {
    forall x | x in ShiftNodes(members, offset) ensures x in SetOf(shifted) {
      var m :| m in members && x == m + offset;
      var i :| 0 <= i < |list| && list[i] == m;
      assert shifted[i] == x;
    }
    forall x | x in SetOf(shifted) ensures x in ShiftNodes(members, offset) {
      var i :| 0 <= i < |shifted| && shifted[i] == x;
      assert list[i] in list;
    }
  }

  /** Run every branch independently. */
  method Grouped(branches: seq<Item>) returns (flow: Workflow)
    requires AllValid(branches)
    ensures fresh(flow) && flow.Valid()
    ensures flow.Value() == GroupOf(Values(branches))
  {
    ghost var values := Values(branches);
    flow := new Workflow([]);
    for k := 0 to |branches|
      invariant fresh(flow) && flow.Valid()
      invariant forall i :: 0 <= i < |branches| ==>
                  flow !in branches[i].Footprint() && branches[i].Valid() && branches[i].Value() == values[i]
      invariant flow.Value() == GroupOf(values[..k])
    {
      assert values[..k + 1][..k] == values[..k] && values[..k + 1][k] == values[k];
      var sub := AsWorkflow(branches[k]);
      var added := flow.Absorb(sub);
    }
    assert values[..|branches|] == values;
    assert Values(branches) == values;
  }

  /** Run the callback once everything in the body has finished. A body that is
      already a graph is not copied: the callback is added to that very object,
      which is also what is returned. */
  method Chorded(body: Item, callback: Node) returns (flow: Workflow)
    requires body.Valid()
    modifies body.Footprint()
    ensures flow.Valid() && flow.Value() == ChordOf(old(body.Value()), callback)
    ensures if body.Sub? then flow == body.flow else fresh(flow)
  {
    flow := AsWorkflow(body);
    var tails := flow.LeafList();
    var last := new Workflow([callback]);
    LinkedCombines(flow.Value(), SetOf(tails), last.Value());
    var added := flow.Absorb(last);
    flow.Connect(tails, added);
    assert Roots(last.Value()) == {0};
    assert SetOf(added) == ShiftNodes({0}, added[0]);
    assert SetOf(tails) == Leaves(old(body.Value()));
  }
}
