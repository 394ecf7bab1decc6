/** Task plans as dependency graphs: the data the scheduler of src/dag.rs works on, and the
    graph notions (walks, cycles, closed plans) its theorems are about. */
module Graph {
  import opened Wrappers

  type NodeId = string

  /** The serialisable steps that the create plans use. Of a container's arguments only the MySQL
      server id is kept, of SQL only what it does. */
  datatype Sql = CreateReplicationUser | FollowSource(source: string)

  datatype Step =
    | NetworkCreate(network: string)
    | DockerRun(container: string, serverId: Option<nat>)
    | DockerRm(container: string)
    | WaitMysql(container: string)
    | ExecSql(container: string, sql: Sql)
    | WriteHostFile(path: string)
    | EnsureLvs(instance: string)
    | VerifyReplication(master: string, slaves: seq<string>)
    | VerifyXenon(members: seq<string>)
    | UpdateInstanceStatus(instance: string, status: string)
    | DtsRun(instance: string, node: string)
    | Noop(note: string)

  datatype TaskNode = TaskNode(id: NodeId, deps: seq<NodeId>, retries: nat, steps: seq<Step>)

  type Plan = seq<TaskNode>

  ghost function Ids(nodes: Plan): set<NodeId> {
    set n | n in nodes :: n.id
  }

  ghost predicate UniqueIds(nodes: Plan) {
    forall i, j :: 0 <= i < j < |nodes| ==> nodes[i].id != nodes[j].id
  }

  /** Every dependency names a node of the plan. */
  ghost predicate Closed(nodes: Plan) {
    forall n, d :: n in nodes && d in n.deps ==> d in Ids(nodes)
  }

  /** The dependencies of the first node listed under `id`; an unknown id has none. */
  function DepsOf(nodes: Plan, id: NodeId): seq<NodeId> {
    if nodes == [] then []
    else if nodes[0].id == id then nodes[0].deps
    else DepsOf(nodes[1..], id)
  }

  lemma {:induction false} DepsOfMember(nodes: Plan, n: TaskNode)
    requires UniqueIds(nodes) && n in nodes
    ensures DepsOf(nodes, n.id) == n.deps
  {
    if nodes[0] != n {
      var i :| 0 <= i < |nodes| && nodes[i] == n;
      assert nodes[1..][i - 1] == n;
      DepsOfMember(nodes[1..], n);
    }
  }

  lemma {:induction false} DepsOfUnknown(nodes: Plan, id: NodeId)
    requires id !in Ids(nodes)
    ensures DepsOf(nodes, id) == []
  {
    if nodes != [] {
      assert nodes[0] in nodes;
      assert Ids(nodes[1..]) <= Ids(nodes);
      DepsOfUnknown(nodes[1..], id);
    }
  }

  lemma {:induction false} PushedIds(nodes: Plan, n: TaskNode)
    requires UniqueIds(nodes) && n.id !in Ids(nodes)
    ensures UniqueIds(nodes + [n]) && Ids(nodes + [n]) == Ids(nodes) + {n.id}
    ensures forall m :: m in nodes + [n] <==> m in nodes || m == n
  {
    var nodes' := nodes + [n];
    forall i, j | 0 <= i < j < |nodes'| ensures nodes'[i].id != nodes'[j].id {
      assert nodes'[i] in nodes;
    }
  }

  // ----- Walks and cycles -----

  /** A walk follows dependency edges: each element is a dependency of the one before it. */
  ghost predicate Walk(nodes: Plan, w: seq<NodeId>) {
    |w| > 0 && forall i, j :: 0 <= i && j == i + 1 && j < |w| ==> w[j] in DepsOf(nodes, w[i])
  }

  ghost predicate Repeats(w: seq<NodeId>) {
    exists i, j :: 0 <= i < j < |w| && w[i] == w[j]
  }

  /** Some walk from `x` comes back to a node it has already visited. */
  ghost predicate ReachesCycle(nodes: Plan, x: NodeId) {
    exists w :: Walk(nodes, w) && w[0] == x && Repeats(w)
  }

  ghost predicate Acyclic(nodes: Plan) {
    forall w :: Walk(nodes, w) ==> !Repeats(w)
  }

  lemma {:induction false} AcyclicIffNoNodeReachesCycle(nodes: Plan)
    ensures Acyclic(nodes) <==> forall n :: n in nodes ==> !ReachesCycle(nodes, n.id)
  {
    if w :| Walk(nodes, w) && Repeats(w) {
      assert w[1] in DepsOf(nodes, w[0]);
      if w[0] !in Ids(nodes) {
        DepsOfUnknown(nodes, w[0]);
      }
      var n :| n in nodes && n.id == w[0];
      assert ReachesCycle(nodes, n.id);
    }
  }

  lemma {:induction false} CyclePrepend(nodes: Plan, x: NodeId, d: NodeId)
    requires d in DepsOf(nodes, x) && ReachesCycle(nodes, d)
    ensures ReachesCycle(nodes, x)
  {
    var w :| Walk(nodes, w) && w[0] == d && Repeats(w);
    var i, j :| 0 <= i < j < |w| && w[i] == w[j];
    var v := [x] + w;
    assert v[i + 1] == w[i] && v[j + 1] == w[j];
    assert Repeats(v);
    assert Walk(nodes, v) && v[0] == x;
  }

  /** `x` is the first listed node from which a cycle can be reached. */
  ghost predicate FirstCyclic(nodes: Plan, x: NodeId) {
    exists i :: 0 <= i < |nodes| && nodes[i].id == x && ReachesCycle(nodes, x)
      && forall j :: 0 <= j < i ==> !ReachesCycle(nodes, nodes[j].id)
  }

  /** A list in which every node comes after all of its dependencies. */
  ghost predicate Topological(nodes: Plan, order: seq<NodeId>) {
    (forall i, j :: 0 <= i < j < |order| ==> order[i] != order[j])
    && forall i, d :: 0 <= i < |order| && d in DepsOf(nodes, order[i]) ==> d in order[..i]
  }

  /** Walks that start inside a topological list run strictly backwards through it. */
  lemma {:induction false} WalkDescends(nodes: Plan, order: seq<NodeId>, w: seq<NodeId>, i: nat)
    requires Topological(nodes, order) && Walk(nodes, w)
    requires i < |order| && w[0] == order[i]
    ensures forall j :: 0 < j < |w| ==> w[j] in order[..i]
    ensures !Repeats(w)
    decreases |w|
  {
    if |w| > 1 {
      assert w[1] in DepsOf(nodes, w[0]);
      var k :| 0 <= k < i && order[..i][k] == w[1];
      assert order[k] == w[1];
      var v := w[1..];
      WalkDescends(nodes, order, v, k);
      forall j | 0 < j < |w| ensures w[j] in order[..i] {
        assert w[j] == v[j - 1];
        if j > 1 {
          var m :| 0 <= m < k && order[..k][m] == v[j - 1];
          assert order[..i][m] == w[j];
        }
      }
    }
  }

  lemma {:induction false} TopologicalNoCycle(nodes: Plan, order: seq<NodeId>, x: NodeId)
    requires Topological(nodes, order) && x in order
    ensures !ReachesCycle(nodes, x)
  {
    var i :| 0 <= i < |order| && order[i] == x;
    forall w | Walk(nodes, w) && w[0] == x ensures !Repeats(w) {
      WalkDescends(nodes, order, w, i);
    }
  }
}
