/** The persisted copy of a task: its status row and one row per node. It is all that survives a
    crash, and what resume, hydration and rerun start from. */
module Store {
  import opened Graph
  import opened Sessions

  datatype Row = Row(node: TaskNode, result: NodeResult)

  datatype Disk = Disk(status: TaskStatus, rows: map<NodeId, Row>)

  const UNRUN := NodeResult(Pending, 0)

  predicate Unfinished(r: Row) {
    r.result.status in {Pending, Running}
  }

  predicate Succeeded(rows: map<NodeId, Row>, id: NodeId) {
    id in rows && rows[id].result.status == Success
  }

  /** Every row is stored under the id of its node. */
  ghost predicate Keyed(rows: map<NodeId, Row>) {
    forall id :: id in rows ==> rows[id].node.id == id
  }

  /** Writing a node row. The SQL backend keeps the stored definition of an existing row, the
      in-memory backend replaces it. */
  function Upsert(keepsDeps: bool, rows: map<NodeId, Row>, n: TaskNode, r: NodeResult): map<NodeId, Row> {
    rows[n.id := Row(if keepsDeps && n.id in rows then rows[n.id].node else n, r)]
  }

  function Write(keepsDeps: bool, d: Disk, e: Event): Disk {
    match e
    case TaskSet(st) => d.(status := st)
    case Wrote(n, r) => d.(rows := Upsert(keepsDeps, d.rows, n, r))
    case _ => d
  }

  /** The disk after the writes of a trace. */
  function Apply(keepsDeps: bool, d: Disk, tr: Trace): Disk {
    if tr == [] then d else Write(keepsDeps, Apply(keepsDeps, d, tr[..|tr| - 1]), tr[|tr| - 1])
  }

  lemma {:induction false} Extend(nodes: Plan, tr: Trace, e: Event)
    requires Legal(nodes, tr) && Allowed(nodes, Fold(tr), e)
    ensures Legal(nodes, tr + [e]) && Fold(tr + [e]) == After(Fold(tr), e)
    ensures forall k, d :: Apply(k, d, tr + [e]) == Write(k, Apply(k, d, tr), e)
  {
    var longer := tr + [e];
    assert longer[..|longer| - 1] == tr;
  }

  /** The rows that submitting a plan creates. */
  function Skeleton(nodes: Plan): map<NodeId, Row> {
    if nodes == [] then map[]
    else
      var n := nodes[|nodes| - 1];
      Skeleton(nodes[..|nodes| - 1])[n.id := Row(n, UNRUN)]
  }

  lemma {:induction false} SkeletonRows(nodes: Plan)
    requires UniqueIds(nodes)
    ensures Skeleton(nodes).Keys == Ids(nodes)
    ensures forall n :: n in nodes ==> n.id in Skeleton(nodes) && Skeleton(nodes)[n.id] == Row(n, UNRUN)
  {
    if nodes != [] {
      var init, last := nodes[..|nodes| - 1], nodes[|nodes| - 1];
      SkeletonRows(init);
      forall n | n in nodes ensures n == last || (n in init && n.id != last.id) {
        var i :| 0 <= i < |nodes| && nodes[i] == n;
        if i < |init| {
          assert init[i] == n;
        }
      }
    }
  }

  // ----- Resuming -----

  function Unsatisfied(deps: seq<NodeId>, rows: map<NodeId, Row>): seq<NodeId> {
    if deps == [] then []
    else (if Succeeded(rows, deps[0]) then [] else [deps[0]]) + Unsatisfied(deps[1..], rows)
  }

  lemma {:induction false} UnsatisfiedMembers(deps: seq<NodeId>, rows: map<NodeId, Row>)
    ensures forall d :: d in Unsatisfied(deps, rows) <==> d in deps && !Succeeded(rows, d)
  {
    if deps != [] {
      UnsatisfiedMembers(deps[1..], rows);
      assert deps == [deps[0]] + deps[1..];
    }
  }

  /** The node that resume runs for an unfinished row: edges to successful nodes are dropped. */
  function Pruned(r: Row, rows: map<NodeId, Row>): TaskNode {
    r.node.(deps := Unsatisfied(r.node.deps, rows))
  }

  /** `nodes` lists the unfinished rows, pruned, in some order. */
  ghost predicate ToRun(d: Disk, nodes: Plan) {
    && UniqueIds(nodes)
    && (forall n :: n in nodes ==> n.id in d.rows && Unfinished(d.rows[n.id]) && n == Pruned(d.rows[n.id], d.rows))
    && (forall id :: id in d.rows && Unfinished(d.rows[id]) ==> id in Ids(nodes))
  }

  // ----- Rerunning one node -----

  ghost predicate AllSuccessOrSkipped(rows: map<NodeId, Row>) {
    forall id :: id in rows ==> rows[id].result.status in {Success, Skipped}
  }

  ghost predicate MayRerun(d: Disk, n: TaskNode) {
    && d.status == Failed
    && n.id in d.rows && d.rows[n.id].result.status in {Failed, Skipped}
    && forall dep :: dep in n.deps ==> Succeeded(d.rows, dep)
  }

  /** The writes of a manual rerun of `n` with result `r`. */
  ghost function RerunTrace(keepsDeps: bool, d: Disk, n: TaskNode, r: NodeResult): Trace {
    var ok := AllSuccessOrSkipped(Upsert(keepsDeps, d.rows, n, r));
    [TaskSet(Running), Started(0, n.id, true), Wrote(n, r), TaskSet(if ok then Success else Failed)]
  }

  ghost predicate RerunResult(n: TaskNode, r: NodeResult) {
    match r.status
    case Success => 1 <= r.attempts <= n.retries + 1
    case Failed => r.attempts == n.retries + 1
    case _ => false
  }
}
