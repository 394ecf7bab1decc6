/** Cycle detection of src/dag.rs: a depth-first search that shares its visiting and visited
    sets between all roots. */
module CycleSearch {
  import opened Graph
  import opened Wrappers

  /** Every id the search can meet: the listed ones and their dependencies. */
  ghost function Universe(nodes: Plan): set<NodeId> {
    Ids(nodes) + (set n, d | n in nodes && d in n.deps :: d)
  }

  lemma {:induction false} DepsInUniverse(nodes: Plan, id: NodeId, d: NodeId)
    requires d in DepsOf(nodes, id)
    ensures d in Universe(nodes)
  {
    if nodes[0].id == id {
      assert nodes[0] in nodes;
    } else {
      DepsInUniverse(nodes[1..], id, d);
      assert forall n :: n in nodes[1..] ==> n in nodes;
    }
  }

  class Search {
    const nodes: Plan
    var visiting: set<NodeId>
    var visited: set<NodeId>
    // the finished nodes, in the order in which they were finished
    ghost var order: seq<NodeId>

    ghost predicate Valid()
      reads this
    {
      && (set x | x in order) == visited
      && Topological(nodes, order)
      && visiting !! visited
    }

    constructor (nodes: Plan)
      ensures Valid() && this.nodes == nodes && visiting == {} && visited == {}
    {
      this.nodes := nodes;
      visiting, visited, order := {}, {}, [];
    }

    /** `stack` is the chain of open calls; it is what `visiting` holds. */
    method Dfs(id: NodeId, ghost stack: seq<NodeId>) returns (found: bool)
      requires Valid() && id in Universe(nodes)
      requires visiting == (set x | x in stack) && Walk(nodes, stack + [id])
      modifies this
      ensures found ==> ReachesCycle(nodes, id)
      ensures !found ==> Valid() && visiting == old(visiting) && id in visited
      ensures !found ==> old(visited) <= visited && !ReachesCycle(nodes, id)
      decreases Universe(nodes) - visiting - visited
    {
      if id in visiting {
        CycleOnStack(id, stack);
        return true;
      }
      if id in visited {
        TopologicalNoCycle(nodes, order, id);
        return false;
      }
      ghost var measure := Universe(nodes) - visiting - visited;
      assert id in measure;
      visiting := visiting + {id};
      var deps := DepsOf(nodes, id);
      var i := 0;
      while i < |deps|
        invariant 0 <= i <= |deps|
        invariant Valid() && visiting == old(visiting) + {id} && old(visited) <= visited
        invariant forall j :: 0 <= j < i ==> deps[j] in visited
      {
        DepsInUniverse(nodes, id, deps[i]);
        ExtendStack(id, stack, deps[i]);
        assert Universe(nodes) - visiting - visited <= measure - {id} < measure;
        var below := Dfs(deps[i], stack + [id]);
        if below {
          CyclePrepend(nodes, id, deps[i]);
          return true;
        }
        i := i + 1;
      }
      visiting := visiting - {id};
      visited := visited + {id};
      ghost var before := order;
      order := order + [id];
      assert order[|before|] == id;
      forall j, d | 0 <= j < |order| && d in DepsOf(nodes, order[j]) ensures d in order[..j] {
        if j < |before| {
          assert order[..j] == before[..j];
        } else {
          assert order[..j] == before;
          assert d in visited;
        }
      }
      TopologicalNoCycle(nodes, order, id);
      return false;
    }

    lemma {:induction false} CycleOnStack(id: NodeId, stack: seq<NodeId>)
      requires id in stack && Walk(nodes, stack + [id])
      ensures ReachesCycle(nodes, id)
    {
      var j :| 0 <= j < |stack| && stack[j] == id;
      var path := stack + [id];
      var w := path[j..];
      assert w[0] == w[|w| - 1] == id;
      assert Walk(nodes, w) && Repeats(w);
    }

    lemma {:induction false} ExtendStack(id: NodeId, stack: seq<NodeId>, d: NodeId)
      requires Walk(nodes, stack + [id]) && d in DepsOf(nodes, id)
      ensures Walk(nodes, (stack + [id]) + [d])
    {
      var path := stack + [id];
      var longer := path + [d];
    }
  }

  /** The engine refuses a plan exactly when this finds a root. The root need not lie on the cycle. */
  method FindCycle(nodes: Plan) returns (r: Option<NodeId>)
    ensures r.None? <==> Acyclic(nodes)
    ensures r.Some? ==> FirstCyclic(nodes, r.value)
  {
    var search := new Search(nodes);
    var i := 0;
    while i < |nodes|
      invariant 0 <= i <= |nodes|
      invariant search.Valid() && search.visiting == {} && search.nodes == nodes
      invariant forall j :: 0 <= j < i ==> !ReachesCycle(nodes, nodes[j].id)
    {
      assert nodes[i] in nodes;
      assert [] + [nodes[i].id] == [nodes[i].id];
      var found := search.Dfs(nodes[i].id, []);
      if found {
        AcyclicIffNoNodeReachesCycle(nodes);
        return Some(nodes[i].id);
      }
      i := i + 1;
    }
    AcyclicIffNoNodeReachesCycle(nodes);
    return None;
  }

  /** `x` lies on a cycle: some walk leads back to it. */
  ghost predicate OnCycle(nodes: Plan, x: NodeId) {
    exists w :: Walk(nodes, w) && |w| > 1 && w[0] == x && w[|w| - 1] == x
  }

  lemma {:induction false} OnCycleReaches(nodes: Plan, x: NodeId)
    requires OnCycle(nodes, x)
    ensures ReachesCycle(nodes, x)
  {
    var w :| Walk(nodes, w) && |w| > 1 && w[0] == x && w[|w| - 1] == x;
    assert Repeats(w);
  }

  lemma {:induction false} LoopIsCycle(nodes: Plan, w: seq<NodeId>, a: nat, b: nat)
    requires Walk(nodes, w) && a < b < |w| && w[a] == w[b]
    ensures OnCycle(nodes, w[a]) && w[a + 1] in DepsOf(nodes, w[a])
  {
    var loop := w[a..b + 1];
    forall i, j | 0 <= i && j == i + 1 && j < |loop| ensures loop[j] in DepsOf(nodes, loop[i]) {
      var p := a + i;
      assert w[p + 1] in DepsOf(nodes, w[p]);
    }
    assert Walk(nodes, loop) && loop[0] == w[a] && loop[|loop| - 1] == w[b];
  }

  lemma {:induction false} HasPlace(nodes: Plan, x: NodeId, d: NodeId) returns (i: nat)
    requires d in DepsOf(nodes, x)
    ensures i < |nodes| && nodes[i].id == x
  {
    if x !in Ids(nodes) {
      DepsOfUnknown(nodes, x);
    }
    var n :| n in nodes && n.id == x;
    i :| 0 <= i < |nodes| && nodes[i] == n;
  }

  /** Every cycle runs through listed nodes. */
  lemma {:induction false} CycleIsListed(nodes: Plan, x: NodeId) returns (i: nat)
    requires ReachesCycle(nodes, x)
    ensures i < |nodes| && OnCycle(nodes, nodes[i].id)
  {
    hide OnCycle;
    var w :| Walk(nodes, w) && w[0] == x && Repeats(w);
    var a, b :| 0 <= a < b < |w| && w[a] == w[b];
    LoopIsCycle(nodes, w, a, b);
    i := HasPlace(nodes, w[a], w[a + 1]);
  }

  lemma {:induction false} FirstOnCycle(nodes: Plan, i: nat) returns (f: nat)
    requires i < |nodes| && OnCycle(nodes, nodes[i].id)
    ensures f <= i && OnCycle(nodes, nodes[f].id) && forall j :: 0 <= j < f ==> !OnCycle(nodes, nodes[j].id)
    decreases i
  {
    hide OnCycle;
    if j: nat :| j < i && OnCycle(nodes, nodes[j].id) {
      f := FirstOnCycle(nodes, j);
    } else {
      f := i;
    }
  }

  lemma {:induction false} FirstReaches(nodes: Plan, x: NodeId)
    requires FirstCyclic(nodes, x)
    ensures ReachesCycle(nodes, x)
  {
    hide ReachesCycle;
  }

  lemma {:induction false} RootIsFirst(nodes: Plan, x: NodeId, f: nat)
    requires FirstCyclic(nodes, x) && f < |nodes| && ReachesCycle(nodes, nodes[f].id)
    requires OnCycle(nodes, nodes[f].id) && forall j :: 0 <= j < f ==> !OnCycle(nodes, nodes[j].id)
    ensures OnCycle(nodes, x) <==> forall j :: 0 <= j < f ==> !ReachesCycle(nodes, nodes[j].id)
  {
    hide OnCycle, ReachesCycle;
    var r :| 0 <= r < |nodes| && nodes[r].id == x && ReachesCycle(nodes, x)
      && forall j :: 0 <= j < r ==> !ReachesCycle(nodes, nodes[j].id);
    assert r <= f;
    if r < f {
      assert !OnCycle(nodes, nodes[r].id) && ReachesCycle(nodes, nodes[r].id);
    }
  }

  /** Exactly when the reported root lies on a cycle: no node that is listed before the first cycle member
      leads to a cycle. */
  lemma {:induction false} RootOnCycleIff(nodes: Plan, x: NodeId) returns (f: nat)
    requires FirstCyclic(nodes, x)
    ensures f < |nodes| && OnCycle(nodes, nodes[f].id) && forall j :: 0 <= j < f ==> !OnCycle(nodes, nodes[j].id)
    ensures OnCycle(nodes, x) <==> forall j :: 0 <= j < f ==> !ReachesCycle(nodes, nodes[j].id)
  {
    hide OnCycle, ReachesCycle, FirstCyclic;
    FirstReaches(nodes, x);
    var some := CycleIsListed(nodes, x);
    f := FirstOnCycle(nodes, some);
    OnCycleReaches(nodes, nodes[f].id);
    RootIsFirst(nodes, x, f);
  }

  /** The reported root can lie off every cycle: here `a` only leads to the cycle b -> b. */
  lemma {:induction false} ReportedRootMayLieOffTheCycle()
    ensures exists nodes: Plan, x :: FirstCyclic(nodes, x) && !OnCycle(nodes, x)
  {
    var nodes := [TaskNode("a", ["b"], 0, []), TaskNode("b", ["b"], 0, [])];
    assert DepsOf(nodes, "a") == ["b"];
    assert DepsOf(nodes[1..], "b") == ["b"];
    var c := ["a", "b", "b"];
    assert c[1] == c[2];
    assert Walk(nodes, c) && Repeats(c);
    assert nodes[0].id == "a" && ReachesCycle(nodes, "a");
    assert FirstCyclic(nodes, "a");
    forall w | Walk(nodes, w) && |w| > 1 && w[0] == "a" ensures w[|w| - 1] != "a" {
      StaysAtB(nodes, w, |w| - 1);
    }
  }

  lemma {:induction false} StaysAtB(nodes: Plan, w: seq<NodeId>, i: nat)
    requires nodes == [TaskNode("a", ["b"], 0, []), TaskNode("b", ["b"], 0, [])]
    requires Walk(nodes, w) && 0 < i < |w|
    ensures w[i] == "b"
  {
    assert w[i] in DepsOf(nodes, w[i - 1]);
    assert nodes[1..] == [TaskNode("b", ["b"], 0, [])];
    assert nodes[1..][1..] == [];
    assert DepsOf(nodes[1..][1..], w[i - 1]) == [];
  }
}
