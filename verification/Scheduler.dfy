/** The task engine of src/dag.rs: wave execution from dependency counts, failure propagation,
    cancel, resume, hydration and manual rerun. Step outcomes, the order in which the nodes of a
    wave finish and the arrival of a cancel are left open; each method is proved to emit only legal
    traces (module Sessions) and to leave disk and memory as those traces say. */
module Scheduler {
  import opened Graph
  import opened Wrappers
  import opened Waves
  import opened Sessions
  import opened Store
  import CycleSearch
  import Joint
  import JointRuns
  import Ledger
  import Runs

  // ----- Dependency counting -----

  function Occ(x: NodeId, s: seq<NodeId>): nat {
    if s == [] then 0 else (if s[0] == x then 1 else 0) + Occ(x, s[1..])
  }

  ghost function Outstanding(deps: seq<NodeId>, s: set<NodeId>): nat {
    if deps == [] then 0 else (if deps[0] in s then 0 else 1) + Outstanding(deps[1..], s)
  }

  lemma {:induction false} MissingSplits(deps: seq<NodeId>, s: set<NodeId>, x: NodeId)
    requires x !in s
    ensures Outstanding(deps, s) == Outstanding(deps, s + {x}) + Occ(x, deps)
  {
    if deps != [] {
      MissingSplits(deps[1..], s, x);
    }
  }

  lemma {:induction false} NoneMissing(deps: seq<NodeId>, s: set<NodeId>)
    ensures Outstanding(deps, s) == 0 <==> forall d :: d in deps ==> d in s
  {
    if deps != [] {
      NoneMissing(deps[1..], s);
      assert deps == [deps[0]] + deps[1..];
    }
  }

  lemma {:induction false} AllMissing(deps: seq<NodeId>)
    ensures Outstanding(deps, {}) == |deps|
  {
    if deps != [] {
      AllMissing(deps[1..]);
    }
  }

  lemma {:induction false} OccAppend(x: NodeId, s: seq<NodeId>, y: NodeId)
    ensures Occ(x, s + [y]) == Occ(x, s) + if x == y then 1 else 0
  {
    if s == [] {
      assert s + [y] == [y];
      assert [y][1..] == [];
    } else {
      assert (s + [y])[1..] == s[1..] + [y];
      OccAppend(x, s[1..], y);
    }
  }

  lemma {:induction false} OccZero(x: NodeId, s: seq<NodeId>)
    ensures Occ(x, s) == 0 <==> x !in s
  {
    if s != [] {
      OccZero(x, s[1..]);
      assert s == [s[0]] + s[1..];
    }
  }

  function Lookup(m: map<NodeId, seq<NodeId>>, x: NodeId): seq<NodeId> {
    if x in m then m[x] else []
  }

  /** `depsLeft` counts, for every node, its dependency entries outside `s`. */
  ghost predicate Counted(nodes: Plan, depsLeft: map<NodeId, nat>, s: set<NodeId>) {
    forall n :: n in nodes ==> n.id in depsLeft && depsLeft[n.id] == Outstanding(n.deps, s)
  }

  /** `dependents` is the plan's dependency table turned around, with multiplicities. */
  ghost predicate Inverted(nodes: Plan, dependents: map<NodeId, seq<NodeId>>) {
    && (forall x, n :: n in nodes ==> Occ(n.id, Lookup(dependents, x)) == Occ(x, n.deps))
    && (forall x, d :: d in Lookup(dependents, x) ==> d in Ids(nodes))
  }

  method CountDependencies(nodes: Plan) returns (depsLeft: map<NodeId, nat>)
    requires UniqueIds(nodes)
    ensures Counted(nodes, depsLeft, {}) && depsLeft.Keys == Ids(nodes)
  {
    depsLeft := map[];
    var i := 0;
    while i < |nodes|
      invariant 0 <= i <= |nodes|
      invariant forall j :: 0 <= j < i ==> nodes[j].id in depsLeft && depsLeft[nodes[j].id] == |nodes[j].deps|
      invariant depsLeft.Keys == Ids(nodes[..i])
    {
      depsLeft := depsLeft[nodes[i].id := |nodes[i].deps|];
      assert nodes[..i + 1] == nodes[..i] + [nodes[i]];
      i := i + 1;
    }
    assert nodes[..i] == nodes;
    forall n | n in nodes ensures n.id in depsLeft && depsLeft[n.id] == Outstanding(n.deps, {}) {
      AllMissing(n.deps);
    }
  }

  ghost predicate Indexed(nodes: Plan, nodeById: map<NodeId, TaskNode>) {
    nodeById.Keys == Ids(nodes) && forall n :: n in nodes ==> n.id in nodeById && nodeById[n.id] == n
  }

  method IndexNodes(nodes: Plan) returns (nodeById: map<NodeId, TaskNode>)
    requires UniqueIds(nodes)
    ensures Indexed(nodes, nodeById)
  {
    nodeById := map[];
    var i := 0;
    while i < |nodes|
      invariant 0 <= i <= |nodes|
      invariant nodeById.Keys == Ids(nodes[..i])
      invariant forall j :: 0 <= j < i ==> nodes[j].id in nodeById && nodeById[nodes[j].id] == nodes[j]
    {
      nodeById := nodeById[nodes[i].id := nodes[i]];
      assert nodes[..i + 1] == nodes[..i] + [nodes[i]];
      i := i + 1;
    }
    assert nodes[..i] == nodes;
  }

  /** How often node `j` is listed under `x` once the nodes before `i`, and the first `k` dependencies of
      node `i`, have been entered. */
  ghost function Entered(nodes: Plan, i: nat, k: nat, x: NodeId, j: nat): nat
    requires j < |nodes| && (j == i ==> k <= |nodes[i].deps|)
  {
    if j < i then Occ(x, nodes[j].deps) else if j == i then Occ(x, nodes[j].deps[..k]) else 0
  }

  ghost predicate EnteredTo(nodes: Plan, m: map<NodeId, seq<NodeId>>, i: nat, k: nat)
    requires i < |nodes| ==> k <= |nodes[i].deps|
  {
    && (forall x, j: nat :: j < |nodes| ==> Occ(nodes[j].id, Lookup(m, x)) == Entered(nodes, i, k, x, j))
    && (forall x, d :: d in Lookup(m, x) ==> d in Ids(nodes))
  }

  lemma {:induction false} EnterOne(nodes: Plan, m: map<NodeId, seq<NodeId>>, i: nat, k: nat)
    requires UniqueIds(nodes) && i < |nodes| && k < |nodes[i].deps| && EnteredTo(nodes, m, i, k)
    ensures var d := nodes[i].deps[k]; EnteredTo(nodes, m[d := Lookup(m, d) + [nodes[i].id]], i, k + 1)
  {
    var n, d := nodes[i], nodes[i].deps[k];
    var m' := m[d := Lookup(m, d) + [n.id]];
    assert n in nodes;
    assert n.deps[..k + 1] == n.deps[..k] + [d];
    forall x, j: nat | j < |nodes| ensures Occ(nodes[j].id, Lookup(m', x)) == Entered(nodes, i, k + 1, x, j) {
      OccAppend(nodes[j].id, Lookup(m, d), n.id);
      OccAppend(x, n.deps[..k], d);
      assert Occ(nodes[j].id, Lookup(m, x)) == Entered(nodes, i, k, x, j);
    }
    forall x, y | y in Lookup(m', x) ensures y in Ids(nodes) {
      assert y in Lookup(m, x) || y == n.id;
    }
  }

  lemma {:induction false} NextEntry(nodes: Plan, m: map<NodeId, seq<NodeId>>, i: nat)
    requires i < |nodes| && EnteredTo(nodes, m, i, |nodes[i].deps|)
    ensures EnteredTo(nodes, m, i + 1, 0)
  {
    assert nodes[i].deps[..|nodes[i].deps|] == nodes[i].deps;
    forall x, j: nat | j < |nodes| ensures Entered(nodes, i, |nodes[i].deps|, x, j) == Entered(nodes, i + 1, 0, x, j) {
    }
  }

  lemma {:induction false} AllEntered(nodes: Plan, m: map<NodeId, seq<NodeId>>)
    requires EnteredTo(nodes, m, |nodes|, 0)
    ensures Inverted(nodes, m)
  {
    forall x, n | n in nodes ensures Occ(n.id, Lookup(m, x)) == Occ(x, n.deps) {
      var j :| 0 <= j < |nodes| && nodes[j] == n;
      assert Occ(nodes[j].id, Lookup(m, x)) == Entered(nodes, |nodes|, 0, x, j);
    }
  }

  method InvertDependencies(nodes: Plan) returns (dependents: map<NodeId, seq<NodeId>>)
    requires UniqueIds(nodes)
    ensures Inverted(nodes, dependents)
  {
    dependents := map[];
    var i := 0;
    assert EnteredTo(nodes, dependents, 0, 0);
    hide EnteredTo, Lookup, UniqueIds;
    while i < |nodes|
      invariant 0 <= i <= |nodes|
      invariant EnteredTo(nodes, dependents, i, 0)
    {
      var n := nodes[i];
      var k := 0;
      while k < |n.deps|
        invariant 0 <= k <= |n.deps|
        invariant EnteredTo(nodes, dependents, i, k)
      {
        var d := n.deps[k];
        EnterOne(nodes, dependents, i, k);
        dependents := dependents[d := Lookup(dependents, d) + [n.id]];
        k := k + 1;
      }
      NextEntry(nodes, dependents, i);
      i := i + 1;
    }
    AllEntered(nodes, dependents);
  }

  // ----- The scheduler -----

  ghost predicate Finished(tr: Trace) {
    Fold(tr).status in {Success, Failed}
  }

  /** The in-memory results after a trace: a node that is taken up shows as running. */
  ghost function Overlay(results: map<NodeId, NodeResult>, tr: Trace): map<NodeId, NodeResult> {
    if tr == [] then results else OverlayOne(Overlay(results, tr[..|tr| - 1]), tr[|tr| - 1])
  }

  ghost predicate Distinct(ready: seq<TaskNode>) {
    forall i, j :: 0 <= i < j < |ready| ==> ready[i].id != ready[j].id
  }

  /** The nodes that are not taken up yet and wait for nothing. */
  ghost function Unblocked(pending: set<NodeId>, depsLeft: map<NodeId, nat>): set<NodeId> {
    set id | id in pending && id in depsLeft && depsLeft[id] == 0
  }

  lemma {:induction false} NewInPrefix(ready: seq<TaskNode>, i: nat)
    requires Distinct(ready) && i < |ready|
    ensures ready[i].id !in Ids(ready[..i]) && ready[i].id in Ids(ready)
    ensures Ids(ready[..i + 1]) == Ids(ready[..i]) + {ready[i].id}
  {
    assert ready[..i + 1] == ready[..i] + [ready[i]];
    assert ready[i] in ready;
  }

  /** Counting to zero against the first `k` waves is having all dependencies there. */
  lemma {:induction false} ZeroMeansUnblocked(nodes: Plan, depsLeft: map<NodeId, nat>, k: nat)
    requires UniqueIds(nodes) && Counted(nodes, depsLeft, Done(nodes, k))
    ensures Unblocked(Ids(nodes) - Done(nodes, k), depsLeft) == Wave(nodes, k)
    ensures Unblocked(Ids(nodes) - Done(nodes, k + 1), depsLeft) == {}
  {
    forall id | id in Ids(nodes) - Done(nodes, k)
      ensures id in Unblocked(Ids(nodes) - Done(nodes, k), depsLeft) <==> id in Wave(nodes, k)
    {
      var n :| n in nodes && n.id == id;
      NoneMissing(n.deps, Done(nodes, k));
      NextWave(nodes, n, k);
    }
    DoneMonotone(nodes, k, k + 1);
  }

  lemma {:induction false} TakeOut(wave: seq<TaskNode>, i: nat)
    requires Distinct(wave) && i < |wave|
    ensures var rest := wave[..i] + wave[i + 1..];
      Distinct(rest) && (forall n :: n in rest ==> n in wave) && Ids(rest) == Ids(wave) - {wave[i].id}
    ensures wave[i] in wave && wave[i].id in Ids(wave)
  {
    var rest := wave[..i] + wave[i + 1..];
    forall id | id in Ids(wave) - {wave[i].id} ensures id in Ids(rest) {
      var j :| 0 <= j < |wave| && wave[j].id == id;
      assert rest[if j < i then j else j - 1] == wave[j];
    }
  }

  lemma {:induction false} FirstCyclicUnique(nodes: Plan, root: NodeId, id: NodeId)
    requires FirstCyclic(nodes, root)
    ensures root in Ids(nodes)
    ensures FirstCyclic(nodes, id) <==> id == root
  {
    var i :| 0 <= i < |nodes| && nodes[i].id == root && ReachesCycle(nodes, root)
      && forall j :: 0 <= j < i ==> !ReachesCycle(nodes, nodes[j].id);
    assert nodes[i] in nodes;
    if FirstCyclic(nodes, id) {
      var k :| 0 <= k < |nodes| && nodes[k].id == id && ReachesCycle(nodes, id)
        && forall j :: 0 <= j < k ==> !ReachesCycle(nodes, nodes[j].id);
      assert !(i < k) && !(k < i);
    }
  }

  lemma {:induction false} WaveAdded(nodes: Plan, k: nat)
    ensures Done(nodes, k + 1) == Done(nodes, k) + Wave(nodes, k) && Wave(nodes, k) !! Done(nodes, k)
    ensures Wave(nodes, k) <= Ids(nodes)
  {
  }

  // ----- Memory against disk -----

  function StatusOf(results: map<NodeId, NodeResult>, id: NodeId): TaskStatus {
    if id in results then results[id].status else Pending
  }

  /** Memory and disk show the same statuses; only the two unfinished ones may be confused. */
  ghost predicate Agree(results: map<NodeId, NodeResult>, rows: map<NodeId, Row>) {
    results.Keys <= rows.Keys
    && forall id :: id in rows ==>
      StatusOf(results, id) == rows[id].result.status
      || (StatusOf(results, id) in {Pending, Running} && Unfinished(rows[id]))
  }

  /** A run over unfinished rows changes exactly the rows it writes, and memory keeps up with it. */
  lemma {:induction false} AgreeAfter(
      keepsDeps: bool, nodes: Plan, tr: Trace, d: Disk, results: map<NodeId, NodeResult>)
    requires Legal(nodes, tr) && Agree(results, d.rows)
    requires forall id :: id in Ids(nodes) ==> id in d.rows && Unfinished(d.rows[id])
    ensures Agree(Overlay(results, tr), Apply(keepsDeps, d, tr).rows)
    ensures RowsAfter(nodes, Fold(tr), d.rows, Apply(keepsDeps, d, tr).rows)
  {
    if tr != [] {
      var init, e := tr[..|tr| - 1], tr[|tr| - 1];
      AgreeAfter(keepsDeps, nodes, init, d, results);
      AgreeStep(keepsDeps, nodes, Fold(init), e, d.rows, Apply(keepsDeps, d, init), Overlay(results, init));
    }
  }

  ghost predicate RowsAfter(nodes: Plan, s: Session, rows: map<NodeId, Row>, rows': map<NodeId, Row>) {
    && rows'.Keys == rows.Keys && s.written.Keys <= Ids(nodes)
    && forall id :: id in rows ==>
         if id in s.written then rows'[id].result == s.written[id] else rows'[id] == rows[id]
  }

  ghost function OverlayOne(results: map<NodeId, NodeResult>, e: Event): map<NodeId, NodeResult> {
    match e
    case Started(_, id, _) => results[id := NodeResult(Running, 0)]
    case Wrote(n, r) => results[n.id := r]
    case _ => results
  }

  lemma {:induction false} AgreeStarted(
      nodes: Plan, s: Session, rows0: map<NodeId, Row>, rows: map<NodeId, Row>, results: map<NodeId, NodeResult>,
      id: NodeId)
    requires Agree(results, rows) && RowsAfter(nodes, s, rows0, rows)
    requires id in rows0 && Unfinished(rows0[id]) && id !in s.written
    ensures Agree(results[id := NodeResult(Running, 0)], rows)
  {
  }

  lemma {:induction false} AgreeWrote(
      keepsDeps: bool, nodes: Plan, s: Session, rows0: map<NodeId, Row>, rows: map<NodeId, Row>,
      results: map<NodeId, NodeResult>, n: TaskNode, r: NodeResult)
    requires Agree(results, rows) && RowsAfter(nodes, s, rows0, rows) && n.id in Ids(nodes) && n.id in rows0
    ensures Agree(results[n.id := r], Upsert(keepsDeps, rows, n, r))
    ensures RowsAfter(nodes, s.(written := s.written[n.id := r]), rows0, Upsert(keepsDeps, rows, n, r))
  {
    hide Ids;
  }

  lemma {:induction false} AgreeStep(
      keepsDeps: bool, nodes: Plan, s: Session, e: Event, rows0: map<NodeId, Row>, d: Disk,
      results: map<NodeId, NodeResult>)
    requires Allowed(nodes, s, e) && Agree(results, d.rows) && RowsAfter(nodes, s, rows0, d.rows)
    requires s.written.Keys <= Ids(nodes)
    requires forall id :: id in Ids(nodes) ==> id in rows0 && Unfinished(rows0[id])
    ensures Agree(OverlayOne(results, e), Write(keepsDeps, d, e).rows)
    ensures RowsAfter(nodes, After(s, e), rows0, Write(keepsDeps, d, e).rows)
  {
    assert e.Wrote? ==> e.node.id in Ids(nodes);
    assert e.Started? ==> e.id in Ids(nodes) && e.id !in s.written;
    hide Allowed, Ids, Agree, Unfinished;
    match e
    case Started(k, id, _) => AgreeStarted(nodes, s, rows0, d.rows, results, id);
    case Wrote(n, r) => AgreeWrote(keepsDeps, nodes, s, rows0, d.rows, results, n, r);
    case _ =>
  }

  /** The row definitions stay what the plan says when the run used the plan itself. */
  lemma {:induction false} DefinitionsStay(keepsDeps: bool, nodes: Plan, tr: Trace, d: Disk)
    requires UniqueIds(nodes) && Legal(nodes, tr)
    requires forall n :: n in nodes ==> n.id in d.rows && d.rows[n.id].node == n
    ensures forall n :: n in nodes ==>
      n.id in Apply(keepsDeps, d, tr).rows && Apply(keepsDeps, d, tr).rows[n.id].node == n
  {
    if tr != [] {
      DefinitionsStay(keepsDeps, nodes, tr[..|tr| - 1], d);
      var e := tr[|tr| - 1];
      if e.Wrote? {
        forall n | n in nodes && n.id == e.node.id ensures n == e.node {
          SameId(nodes, n, e.node);
        }
      }
    }
  }

  lemma {:induction false} RowsStayKeyed(keepsDeps: bool, tr: Trace, d: Disk)
    requires Keyed(d.rows)
    ensures Keyed(Apply(keepsDeps, d, tr).rows)
  {
    if tr != [] {
      RowsStayKeyed(keepsDeps, tr[..|tr| - 1], d);
    }
  }

  lemma {:induction false} Appended(
      nodes: Plan, keepsDeps: bool, tr: Trace, e: Event, d: Disk, results: map<NodeId, NodeResult>)
    requires Legal(nodes, tr) && Allowed(nodes, Fold(tr), e)
    ensures Legal(nodes, tr + [e]) && Fold(tr + [e]) == After(Fold(tr), e)
    ensures Apply(keepsDeps, d, tr + [e]) == Write(keepsDeps, Apply(keepsDeps, d, tr), e)
    ensures Overlay(results, tr + [e]) == OverlayOne(Overlay(results, tr), e)
  {
    var longer := tr + [e];
    assert longer[..|longer| - 1] == tr && longer[|longer| - 1] == e;
    hide Allowed, After, Write, OverlayOne;
  }

  lemma {:induction false} FailedRoot(s: Session, root: NodeId)
    requires root in s.written && s.written[root].status == Failed
    ensures SomeFailed(s)
  {
  }

  lemma {:induction false} NoneReady()
    ensures Ids([]) == {} && Distinct([])
  {
  }

  lemma {:induction false} ListedId(nodes: Plan, i: nat)
    requires i < |nodes|
    ensures nodes[i].id in Ids(nodes)
  {
  }

  lemma {:induction false} NothingYet(nodes: Plan, keepsDeps: bool, d: Disk, results: map<NodeId, NodeResult>)
    ensures Legal(nodes, []) && Fold([]) == FRESH && Apply(keepsDeps, d, []) == d && Overlay(results, []) == results
  {
  }

  /** Before the first event nothing but the start of the task is allowed. */
  lemma {:induction false} StatusAlong(nodes: Plan, tr: Trace, e: Event)
    requires Allowed(nodes, Fold(tr), e) && !e.TaskSet?
    ensures tr != [] && Fold(tr).status == Running
  {
  }

  lemma {:induction false} AgreeUpserted(
      keepsDeps: bool, results: map<NodeId, NodeResult>, rows: map<NodeId, Row>, n: TaskNode, r: NodeResult)
    requires Keyed(rows) && Agree(results, rows) && n.id in rows
    ensures Keyed(Upsert(keepsDeps, rows, n, r)) && Agree(results[n.id := r], Upsert(keepsDeps, rows, n, r))
  {
  }

  lemma {:induction false} ApplyRerun(keepsDeps: bool, d: Disk, n: TaskNode, r: NodeResult)
    ensures var rows := Upsert(keepsDeps, d.rows, n, r);
      Apply(keepsDeps, d, RerunTrace(keepsDeps, d, n, r))
      == Disk(if AllSuccessOrSkipped(rows) then Success else Failed, rows)
  {
    var tr := RerunTrace(keepsDeps, d, n, r);
    var t1, t2, t3 := tr[..1], tr[..2], tr[..3];
    assert tr[..|tr| - 1] == t3 && t3[..2] == t2 && t2[..1] == t1 && t1[..0] == [];
    assert Apply(keepsDeps, d, t1) == d.(status := Running);
    assert Apply(keepsDeps, d, t2) == d.(status := Running);
    assert Apply(keepsDeps, d, t3) == Disk(Running, Upsert(keepsDeps, d.rows, n, r));
  }

  lemma {:induction false} SameId(nodes: Plan, a: TaskNode, b: TaskNode)
    requires UniqueIds(nodes) && a in nodes && b in nodes && a.id == b.id
    ensures a == b
  {
  }

  datatype RerunOutcome =
    | TaskNotFailed | Undefined | NothingToRetry | UpstreamNotSuccessful
    | Retried(result: NodeResult)

  class TaskScheduler {
    const keepsDeps: bool
    const executor: Ledger.Executor

    // persisted
    var disk: Disk

    // the task in memory: definitions are absent after a resume
    var loaded: bool
    var defs: map<NodeId, TaskNode>
    var meta: TaskStatus
    var results: map<NodeId, NodeResult>
    var canceled: bool

    // the working state of one run
    var plan: Plan
    var nodeById: map<NodeId, TaskNode>
    var depsLeft: map<NodeId, nat>
    var dependents: map<NodeId, seq<NodeId>>
    var pending: set<NodeId>
    var ready: seq<TaskNode>
    var dropped: set<NodeId>  // taken up after a cancel was seen: not run
    var failed: bool

    // the run so far, and what it started from
    ghost var tr: Trace
    ghost var joint: Joint.JTrace
    ghost var ledger0: Ledger.Trace
    ghost var sess: Session
    ghost var disk0: Disk
    ghost var results0: map<NodeId, NodeResult>

    constructor (keepsDeps: bool, executor: Ledger.Executor)
      ensures this.keepsDeps == keepsDeps && this.executor == executor
      ensures disk == Disk(Pending, map[]) && meta == Pending && results == map[] && !canceled
    {
      this.keepsDeps, this.executor := keepsDeps, executor;
      disk, meta, results, canceled := Disk(Pending, map[]), Pending, map[], false;
      loaded, defs := false, map[];
      nodeById, depsLeft, dependents, pending, ready := map[], map[], map[], {}, [];
      dropped, failed, plan := {}, false, [];
    }

    ghost predicate InRun()
      reads this`plan, this`tr, this`joint, this`ledger0, this`sess, this`disk, this`disk0
      reads this`results, this`results0, this`meta, this`canceled, executor
    {
      && UniqueIds(plan) && Legal(plan, tr) && sess == Fold(tr)
      && disk == Apply(keepsDeps, disk0, tr) && results == Overlay(results0, tr)
      && meta == disk.status && (tr != [] ==> meta == sess.status)
      && (sess.canceled ==> canceled)
      && executor.Valid() && Joined()
    }

    /** The run and the ledger have one history, and the ledger backs every success that was written. */
    ghost predicate Joined()
      reads this`tr, this`joint, this`ledger0, executor
    {
      Joint.Tasks(joint) == tr && executor.trace == ledger0 + Joint.Steps(joint) && Joint.Backed(ledger0, joint)
    }

    /** Appends an event to the trace; the caller performs the write it stands for. */
    ghost method Emit(e: Event)
      requires Legal(plan, tr) && sess == Fold(tr) && Allowed(plan, sess, e)
      requires executor.Valid() && Joined() && Joint.Covered(Joint.Task(e), executor.trace)
      modifies this`tr, this`joint, this`sess
      ensures Joined()
      ensures tr == old(tr) + [e] && Legal(plan, tr) && sess == Fold(tr) == After(old(sess), e)
      ensures Apply(keepsDeps, disk0, tr) == Write(keepsDeps, old(Apply(keepsDeps, disk0, tr)), e)
      ensures Overlay(results0, tr) == OverlayOne(old(Overlay(results0, tr)), e)
    {
      hide Legal, Fold, Apply, Overlay, OverlayOne, Write, Allowed, After, Joint.Tasks, Joint.Steps, Joint.Backed;
      hide Ledger.Fold, Ledger.Legal, Joint.Covered;
      Appended(plan, keepsDeps, tr, e, disk0, results0);
      Joint.TaskAppended(ledger0, joint, e);
      tr, sess, joint := tr + [e], After(sess, e), joint + [Joint.Task(e)];
    }

    method SetTask(st: TaskStatus)
      requires InRun() && Allowed(plan, sess, TaskSet(st))
      modifies this`meta, this`disk, this`tr, this`joint, this`sess
      ensures InRun() && tr == old(tr) + [TaskSet(st)]
      ensures sess == After(old(sess), TaskSet(st))
    {
      hide Legal, Fold, Apply, Overlay, Allowed, Joined, Ledger.Executor.Valid;
      meta := st;
      disk := disk.(status := st);
      Emit(TaskSet(st));
    }

    method PersistNode(n: TaskNode, r: NodeResult)
      requires InRun() && Allowed(plan, sess, Wrote(n, r))
      requires r.status == Success ==> Joint.Backs(executor.trace, n)
      requires r.attempts > 0 ==> Ledger.Performed(executor.trace, n, r.attempts, r.status == Success)
      modifies this`results, this`disk, this`tr, this`joint, this`sess
      ensures InRun() && tr == old(tr) + [Wrote(n, r)]
      ensures sess == After(old(sess), Wrote(n, r))
    {
      hide Legal, Fold, Apply, Overlay, Allowed, Joined, Upsert, Joint.Backs, Ledger.Performed, Ledger.Executor.Valid;
      StatusAlong(plan, tr, Wrote(n, r));
      results := results[n.id := r];
      disk := disk.(rows := Upsert(keepsDeps, disk.rows, n, r));
      Emit(Wrote(n, r));
    }

    method MarkRunning(ghost k: nat, id: NodeId, ghost live: bool)
      requires InRun() && Allowed(plan, sess, Started(k, id, live))
      modifies this`results, this`tr, this`joint, this`sess
      ensures InRun() && tr == old(tr) + [Started(k, id, live)]
      ensures sess == After(old(sess), Started(k, id, live))
    {
      hide Legal, Fold, Apply, Overlay, Allowed, Joined, Ledger.Executor.Valid;
      StatusAlong(plan, tr, Started(k, id, live));
      results := results[id := NodeResult(Running, 0)];
      Emit(Started(k, id, live));
    }

    method RunNode(n: TaskNode) returns (ok: bool, attempts: nat)
      requires InRun()
      modifies this`joint, executor
      ensures InRun() && old(executor.done) <= executor.done
      ensures 1 <= attempts <= n.retries + 1 && (!ok ==> attempts == n.retries + 1)
      ensures ok ==> Joint.Backs(executor.trace, n)
      ensures Ledger.Performed(executor.trace, n, attempts, ok)
    {
      hide Legal, Fold, Apply, Overlay, Joint.Tasks, Joint.Steps, Joint.Backed, Ledger.Executor.Valid, Joint.Backs;
      hide Ledger.Performed, Ledger.StepEvents, Ledger.Tries, Ledger.RunLog, Ledger.AllRecorded;
      ghost var before := executor.trace;
      ghost var log;
      ok, attempts, log := executor.RunNode(n);
      if ok {
        NodeIsBacked(n, attempts);
      }
      ghost var more := executor.trace[|before|..];
      Joint.StepsAppended(ledger0, joint, more);
      joint := joint + Joint.AsSteps(more);
    }

    lemma {:induction false} NodeIsBacked(n: TaskNode, attempts: nat)
      requires executor.Valid() && Ledger.AllRecorded(n, executor.done)
      requires Ledger.Performed(executor.trace, n, attempts, true)
      ensures Joint.Backs(executor.trace, n)
    {
      hide Ledger.Performed, Ledger.AllRecorded, Ledger.Completed;
      Ledger.PerformedIsCompleted(executor.trace, n, attempts);
    }

    /** Looks at the cancel flag, which a user may have set at any moment before. */
    method IsCanceled() returns (c: bool)
      requires InRun() && sess.status == Running
      modifies this`canceled, this`tr, this`joint, this`sess
      ensures InRun() && old(tr) <= tr && c == sess.canceled
      ensures sess == old(sess).(canceled := c) && (old(sess).canceled ==> c)
    {
      var request: bool := *;
      canceled := canceled || request;
      if canceled {
        Emit(CancelSeen);
      }
      c := canceled;
    }

    // ----- Execute -----

    /** What a run computes once and keeps: no cycle, and the lookup tables of the plan. */
    ghost predicate Static()
      reads this`plan, this`dependents, this`nodeById
    {
      UniqueIds(plan) && Acyclic(plan) && Inverted(plan, dependents) && Indexed(plan, nodeById)
    }

    /** Before round `k`: exactly the first `k` waves are done, and `ready` lists wave `k`. */
    ghost predicate BeforeWave(k: nat)
      reads this, executor
    {
      var s := sess;
      && InRun() && Static() && s.status == Running && !failed
      && s.started.Keys == s.written.Keys == Done(plan, k) && AllSucceeded(s)
      && pending == Ids(plan) - Done(plan, k)
      && Ready(Wave(plan, k))
      && Counted(plan, depsLeft, Done(plan, k))
      && Flagged() && dropped <= s.started.Keys
    }

    ghost predicate Flagged()
      reads this`sess, this`dropped
    {
      forall id :: id in sess.started ==> (sess.started[id] <==> id !in dropped)
    }

    ghost predicate Ready(ids: set<NodeId>)
      reads this`ready, this`plan
    {
      Distinct(ready) && (forall n :: n in ready ==> n in plan) && Ids(ready) == ids
    }

    /** Inside round `k`: its nodes are all taken up, those in `inflight` have not reported yet. */
    ghost predicate DuringWave(k: nat, inflight: seq<TaskNode>)
      reads this, executor
    {
      var s := sess;
      && InRun() && Static() && s.status == Running
      && s.started.Keys == Done(plan, k + 1) && s.written.Keys == Done(plan, k + 1) - Ids(inflight)
      && (if failed then SomeFailed(s) else AllSucceeded(s))
      && Distinct(inflight) && (forall n :: n in inflight ==> n in plan) && Ids(inflight) <= Wave(plan, k)
      && pending == Ids(plan) - Done(plan, k + 1)
      && Ready(Unblocked(pending, depsLeft))
      && Counted(plan, depsLeft, s.written.Keys)
      && Flagged() && dropped <= s.started.Keys
    }

    /** Takes up one node; if a cancel is seen now, it will not be run. */
    method TakeUp(ghost k: nat, n: TaskNode)
      requires InRun() && Static() && sess.status == Running
      requires n.id in Wave(plan, k) && n.id !in sess.started && Flagged() && dropped <= sess.started.Keys
      requires sess.written.Keys == Done(plan, k) && AllSucceeded(sess)
      modifies this`results, this`canceled, this`dropped, this`tr, this`joint, this`sess
      ensures Flagged() && dropped <= sess.started.Keys
      ensures InRun() && old(tr) <= tr && sess.status == Running
      ensures sess.started.Keys == old(sess.started.Keys) + {n.id}
      ensures sess.written == old(sess.written)
    {
      hide InRun, Acyclic, Inverted, Indexed, Wave, Done;
      var c := IsCanceled();
      if c {
        dropped := dropped + {n.id};
      }
      MarkRunning(k, n.id, !c);
    }

    /** Takes up every ready node. */
    method TakeUpReady(ghost k: nat)
      requires InRun() && Static() && sess.status == Running
      requires sess.started.Keys == sess.written.Keys == Done(plan, k) && AllSucceeded(sess)
      requires Distinct(ready) && Ids(ready) == Wave(plan, k) && Flagged() && dropped <= sess.started.Keys
      modifies this`results, this`pending, this`canceled, this`dropped, this`tr, this`joint, this`sess
      ensures Flagged()
      ensures InRun() && sess.status == Running && old(tr) <= tr
      ensures sess.started.Keys == Done(plan, k) + Ids(ready)
      ensures sess.written == old(sess.written) && dropped <= sess.started.Keys
      ensures pending == old(pending) - Ids(ready)
    {
      hide InRun, Wave, Done, Acyclic, Static, Flagged, Ids, Distinct;
      NoneReady();
      assert ready[..0] == [];
      var i := 0;
      while i < |ready|
        invariant 0 <= i <= |ready|
        invariant InRun() && sess.status == Running && old(tr) <= tr
        invariant Flagged() && dropped <= sess.started.Keys
        invariant sess.started.Keys == Done(plan, k) + Ids(ready[..i])
        invariant sess.written == old(sess.written)
        invariant pending == old(pending) - Ids(ready[..i])
      {
        var n := ready[i];
        NewInPrefix(ready, i);
        WaveOrder(plan, n.id, k, k);
        pending := pending - {n.id};
        TakeUp(k, n);
        i := i + 1;
      }
      assert ready[..i] == ready;
    }

    /** Takes up every ready node; none of them has reported yet. */
    method StartWave(ghost k: nat) returns (inflight: seq<TaskNode>)
      requires BeforeWave(k) && ready != []
      modifies this`results, this`pending, this`ready, this`canceled, this`dropped, this`tr, this`joint, this`sess
      ensures DuringWave(k, inflight) && old(tr) <= tr
      ensures pending < old(pending)
    {
      NoneReady();
      hide InRun, Wave, Done, Acyclic, Inverted, Indexed, Flagged, Counted, SomeFailed, Unblocked, Ids, Distinct;
      ghost var first := ready[0];
      assert first in ready && first.id in Wave(plan, k) by {
        ListedId(ready, 0);
      }
      WaveOrder(plan, first.id, k, k);
      TakeUpReady(k);
      inflight := ready;
      ready := [];
      WaveAdded(plan, k);
      assert pending == Ids(plan) - Done(plan, k + 1);
      assert sess.written.Keys == Done(plan, k + 1) - Ids(inflight);
      ZeroMeansUnblocked(plan, depsLeft, k);
    }

    /** One entry of the dependents' list: count down, and make ready at zero. */
    method CountDown(d: NodeId)
      requires Static() && d in Ids(plan) && d in depsLeft && depsLeft[d] > 0
      requires Ready(Unblocked(pending, depsLeft))
      modifies this`depsLeft, this`ready
      ensures depsLeft == old(depsLeft)[d := old(depsLeft)[d] - 1]
      ensures Ready(Unblocked(pending, depsLeft))
    {
      ghost var before := Unblocked(pending, depsLeft);
      depsLeft := depsLeft[d := if depsLeft[d] > 0 then depsLeft[d] - 1 else 0];
      if depsLeft[d] == 0 && d in pending && d in nodeById {
        ghost var n :| n in plan && n.id == d;
        assert Unblocked(pending, depsLeft) == before + {d};
        ready := ready + [nodeById[d]];
      } else {
        assert Unblocked(pending, depsLeft) == before;
      }
    }

    /** Counts down the dependents of a node that has reported and makes ready those it unblocks. */
    method Drive(x: NodeId, ghost seen: set<NodeId>)
      requires Static() && x !in seen
      requires Counted(plan, depsLeft, seen)
      requires Ready(Unblocked(pending, depsLeft))
      modifies this`depsLeft, this`ready
      ensures Counted(plan, depsLeft, seen + {x})
      ensures Ready(Unblocked(pending, depsLeft))
    {
      var ds := Lookup(dependents, x);
      ghost var seen' := seen + {x};
      forall n | n in plan ensures depsLeft[n.id] == Outstanding(n.deps, seen') + Occ(n.id, ds) {
        MissingSplits(n.deps, seen, x);
      }
      var i := 0;
      assert ds[i..] == ds;
      while i < |ds|
        invariant 0 <= i <= |ds|
        invariant forall n :: n in plan ==>
          n.id in depsLeft && depsLeft[n.id] == Outstanding(n.deps, seen') + Occ(n.id, ds[i..])
        invariant Ready(Unblocked(pending, depsLeft))
      {
        var d := ds[i];
        assert ds[i..] == [d] + ds[i + 1..];
        assert d in Lookup(dependents, x) && d in Ids(plan);
        if d in depsLeft {
          CountDown(d);
        }
        i := i + 1;
      }
    }

    /** Runs one node of the wave (unless a cancel kept it from being run) and records its result. */
    method RunAndRecord(ghost k: nat, n: TaskNode)
      requires InRun() && Static() && sess.status == Running
      requires n in plan && n.id in Wave(plan, k) && n.id !in sess.written && n.id in sess.started
      requires sess.started.Keys == Done(plan, k + 1) && Flagged()
      requires (if failed then SomeFailed(sess) else AllSucceeded(sess))
      modifies this`results, this`disk, this`tr, this`joint, this`sess, this`failed, executor
      ensures InRun() && sess.status == Running && old(tr) <= tr && executor.done >= old(executor.done)
      ensures sess.started == old(sess.started) && sess.written.Keys == old(sess.written.Keys) + {n.id}
      ensures (if failed then SomeFailed(sess) else AllSucceeded(sess))
      ensures sess.canceled == old(sess.canceled) && Flagged()
    {
      hide InRun, Acyclic, Inverted, Indexed, Wave, Done, Joint.Backs, Ledger.Performed;
      var ok, attempts := false, 0;
      if n.id !in dropped {
        ok, attempts := RunNode(n);
      }
      if !ok {
        failed := true;
      }
      PersistNode(n, NodeResult(if ok then Success else Failed, attempts));
    }

    /** Waits for the nodes of the wave in whatever order they report. */
    method JoinWave(ghost k: nat, wave: seq<TaskNode>)
      requires DuringWave(k, wave)
      modifies this`results, this`disk, this`tr, this`joint, this`sess, this`failed, this`depsLeft, this`ready, executor
      ensures DuringWave(k, []) && old(tr) <= tr && old(executor.done) <= executor.done
    {
      hide InRun, Static, Flagged, Wave, Done, Counted, AllSucceeded, SomeFailed, Unblocked, Ids, Distinct;
      NoneReady();
      var inflight := wave;
      while inflight != []
        invariant DuringWave(k, inflight) && old(tr) <= tr && old(executor.done) <= executor.done
        decreases |inflight|
      {
        var i: nat :| i < |inflight|;
        var n := inflight[i];
        var rest := inflight[..i] + inflight[i + 1..];
        TakeOut(inflight, i);
        WaveAdded(plan, k);
        ghost var seen := sess.written.Keys;
        RunAndRecord(k, n);
        Drive(n.id, seen);
        inflight := rest;
      }
    }

    /** After a failed wave, everything that was not taken up is skipped, in plan order. */
    method SkipPending(ghost k: nat)
      requires DuringWave(k, []) && failed
      modifies this`results, this`disk, this`tr, this`joint, this`sess, this`pending
      ensures InRun() && sess.status == Running && old(tr) <= tr
      ensures sess.written.Keys == Ids(plan) && SomeFailed(sess)
    {
      hide InRun, Acyclic, SomeFailed, Inverted, Indexed, Counted, Done, Wave;
      DoneMonotone(plan, k, k + 1);
      var i := 0;
      while i < |plan|
        invariant 0 <= i <= |plan|
        invariant InRun() && sess.status == Running && old(tr) <= tr
        invariant sess.started == old(sess.started) && sess.started.Keys <= sess.written.Keys
        invariant SomeFailed(sess)
        invariant pending == Ids(plan) - sess.written.Keys
        invariant Ids(plan[..i]) <= sess.written.Keys <= Ids(plan)
      {
        NewInPrefix(plan, i);
        SkipOne(plan[i]);
        i := i + 1;
      }
      assert plan[..i] == plan;
    }

    method SkipOne(n: TaskNode)
      requires InRun() && Acyclic(plan) && sess.status == Running && n in plan
      requires sess.started.Keys <= sess.written.Keys <= Ids(plan) && SomeFailed(sess)
      requires pending == Ids(plan) - sess.written.Keys
      modifies this`results, this`disk, this`tr, this`joint, this`sess, this`pending
      ensures InRun() && sess.status == Running && old(tr) <= tr
      ensures sess.started == old(sess.started) && SomeFailed(sess)
      ensures sess.written.Keys == old(sess.written.Keys) + {n.id}
      ensures pending == Ids(plan) - sess.written.Keys
    {
      hide InRun, Acyclic;
      if n.id in pending {
        pending := pending - {n.id};
        ghost var f :| f in sess.written && sess.written[f].status == Failed;
        PersistNode(n, NodeResult(Skipped, 0));
        assert sess.written[f].status == Failed;
      }
    }

    /** A cyclic plan: the reported root fails, the others are skipped, nothing is run. */
    method Reject(root: NodeId)
      requires InRun() && sess == Session(Running, map[], map[], false)
      requires !Acyclic(plan) && FirstCyclic(plan, root)
      modifies this`results, this`disk, this`tr, this`joint, this`sess
      ensures InRun() && sess.status == Running && old(tr) <= tr
      ensures sess.written.Keys == Ids(plan) && SomeFailed(sess)
    {
      hide InRun, FirstCyclic, Acyclic, UniqueIds, Ids, Distinct, SomeFailed;
      PlanIsDistinct();
      FirstCyclicUnique(plan, root, root);
      NoneReady();
      assert plan[..0] == [];
      var i := 0;
      while i < |plan|
        invariant 0 <= i <= |plan|
        invariant InRun() && sess.status == Running && old(tr) <= tr
        invariant sess.written.Keys == Ids(plan[..i])
        invariant root in sess.written ==> sess.written[root].status == Failed
      {
        var n := plan[i];
        NewInPrefix(plan, i);
        assert n in plan;
        RejectOne(root, n);
        i := i + 1;
      }
      assert plan[..i] == plan;
      FailedRoot(sess, root);
    }

    lemma {:induction false} PlanIsDistinct()
      requires InRun()
      ensures Distinct(plan)
    {
    }

    method RejectOne(root: NodeId, n: TaskNode)
      requires InRun() && !Acyclic(plan) && FirstCyclic(plan, root) && n in plan
      requires sess.status == Running && n.id !in sess.written
      modifies this`results, this`disk, this`tr, this`joint, this`sess
      ensures InRun() && sess.status == Running && old(tr) <= tr
      ensures sess.written == old(sess.written)[n.id := NodeResult(if n.id == root then Failed else Skipped, 0)]
    {
      hide InRun, FirstCyclic, Acyclic;
      FirstCyclicUnique(plan, root, n.id);
      PersistNode(n, NodeResult(if n.id == root then Failed else Skipped, 0));
    }

    /** Sets up the counters; the nodes without dependencies are ready. */
    method Prepare()
      requires InRun() && UniqueIds(plan) && Acyclic(plan)
      requires sess == Session(Running, map[], map[], false)
      modifies this`nodeById, this`depsLeft, this`dependents, this`pending, this`ready, this`dropped, this`failed
      ensures BeforeWave(0)
    {
      hide InRun, Acyclic, BeforeWave, Inverted, Indexed, Counted, Ready, Unblocked, UniqueIds, Ids;
      MakeTables();
      CollectReady();
      NothingDoneYet();
    }

    lemma {:induction false} NothingDoneYet()
      requires InRun() && Static() && sess == Session(Running, map[], map[], false)
      requires Counted(plan, depsLeft, {}) && pending == Ids(plan) && Ready(Unblocked(pending, depsLeft))
      requires dropped == {} && !failed
      ensures BeforeWave(0)
    {
      hide InRun, Acyclic, Inverted, Indexed, Wave, Counted;
      assert Ids(plan) - Done(plan, 0) == Ids(plan);
      ZeroMeansUnblocked(plan, depsLeft, 0);
    }

    method MakeTables()
      requires UniqueIds(plan)
      modifies this`nodeById, this`depsLeft, this`dependents, this`dropped, this`failed
      ensures dropped == {} && !failed && depsLeft.Keys == Ids(plan)
      ensures Counted(plan, depsLeft, {}) && Inverted(plan, dependents) && Indexed(plan, nodeById)
    {
      hide *;
      dropped, failed := {}, false;
      depsLeft := CountDependencies(plan);
      dependents := InvertDependencies(plan);
      nodeById := IndexNodes(plan);
    }

    method CollectReady()
      requires UniqueIds(plan) && depsLeft.Keys == Ids(plan)
      modifies this`pending, this`ready
      ensures pending == Ids(plan) && Ready(Unblocked(pending, depsLeft))
    {
      ready, pending := [], {};
      var i := 0;
      while i < |plan|
        invariant 0 <= i <= |plan|
        invariant pending == Ids(plan[..i])
        invariant Ready(Unblocked(pending, depsLeft))
      {
        var n := plan[i];
        NewInPrefix(plan, i);
        ghost var before := Unblocked(pending, depsLeft);
        pending := pending + {n.id};
        if depsLeft[n.id] == 0 {
          assert Unblocked(pending, depsLeft) == before + {n.id};
          ready := ready + [n];
        } else {
          assert Unblocked(pending, depsLeft) == before;
        }
        i := i + 1;
      }
      assert plan[..i] == plan;
    }

    /** The state of a run in which nothing has happened. */
    method Reset(nodes: Plan)
      requires UniqueIds(nodes) && executor.Valid()
      modifies this
      ensures loaded == old(loaded) && defs == old(defs) && disk == old(disk)
      ensures InRun() && plan == nodes && tr == [] && sess == FRESH
      ensures disk0 == old(disk) && results0 == old(results) && ledger0 == old(executor.trace)
    {
      hide Legal, Fold, Apply, Overlay, UniqueIds, Ledger.Executor.Valid, Joint.Tasks, Joint.Steps, Joint.Backed;
      NothingYet(nodes, keepsDeps, disk, results);
      Joint.NothingYet(executor.trace);
      plan, tr, sess, disk0, results0 := nodes, [], FRESH, disk, results;
      joint, ledger0 := [], executor.trace;
      canceled := *;
      meta := disk.status;
    }

    method Begin(nodes: Plan)
      requires UniqueIds(nodes) && executor.Valid()
      modifies this
      ensures loaded == old(loaded) && defs == old(defs)
      ensures InRun() && plan == nodes && sess == Session(Running, map[], map[], false)
      ensures disk0 == old(disk) && results0 == old(results) && ledger0 == old(executor.trace)
    {
      hide InRun, UniqueIds, Ledger.Executor.Valid;
      Reset(nodes);
      SetTask(Running);
    }

    method RunToEnd(nodes: Plan)
      requires UniqueIds(nodes) && executor.Valid()
      modifies this, executor
      ensures InRun() && plan == nodes && Finished(tr)
      ensures loaded == old(loaded) && defs == old(defs)
      ensures disk0 == old(disk) && results0 == old(results) && ledger0 == old(executor.trace)
      ensures old(executor.done) <= executor.done
    {
      hide InRun, Acyclic, Finished, Ledger.Executor.Valid, FirstCyclic, UniqueIds, BeforeWave, SomeFailed;
      Begin(nodes);
      var cycle := CycleSearch.FindCycle(nodes);
      if cycle.Some? {
        Reject(cycle.value);
        Conclude(Failed, 0);
      } else {
        Prepare();
        RunWaves();
      }
    }

    /** Runs the plan to its end. Whatever the steps, the completion order and the user do, this
        terminates, emits a legal finished trace, leaves disk and memory as the trace says, and keeps
        the successes on disk backed by the ledger. */
    method Execute(nodes: Plan)
      requires UniqueIds(nodes) && executor.Valid()
      modifies this, executor
      ensures InRun() && plan == nodes && Finished(tr)
      ensures loaded == old(loaded) && defs == old(defs)
      ensures disk0 == old(disk) && results0 == old(results) && ledger0 == old(executor.trace)
      ensures old(executor.done) <= executor.done
      ensures old(Joint.RowsBacked(disk.rows, executor.trace) && Joint.SameWork(nodes, disk.rows)) ==>
        Joint.RowsBacked(disk.rows, executor.trace)
    {
      hide InRun, Finished, Ledger.Executor.Valid, UniqueIds, Joint.RowsBacked, Joint.SameWork;
      RunToEnd(nodes);
      if Joint.RowsBacked(disk0.rows, ledger0) && Joint.SameWork(plan, disk0.rows) {
        RunIsBacked();
      }
    }

    method Conclude(st: TaskStatus, ghost k: nat)
      requires InRun() && sess.status == Running
      requires match st
               case Success =>
                 Acyclic(plan) && AllSucceeded(sess) && !sess.canceled
                 && sess.written.Keys == Done(plan, k) && Wave(plan, k) == {}
               case Failed =>
                 || (sess.written.Keys == Ids(plan) && SomeFailed(sess))
                 || (sess.canceled && AllSucceeded(sess) && sess.written.Keys == sess.started.Keys == Done(plan, k))
               case _ => false
      modifies this`meta, this`disk, this`tr, this`joint, this`sess
      ensures InRun() && Finished(tr)
    {
      hide InRun, Acyclic, Wave, Done;
      SetTask(st);
    }

    /** One round of the loop: take up the wave, wait for it, and on failure skip the rest. */
    method Round(ghost k: nat)
      requires BeforeWave(k) && ready != []
      modifies this`results, this`disk, this`canceled, this`pending, this`ready, this`dropped, this`failed
      modifies this`depsLeft, this`tr, this`joint, this`sess, executor
      ensures old(executor.done) <= executor.done
      ensures failed ==> InRun() && sess.status == Running && sess.written.Keys == Ids(plan) && SomeFailed(sess)
      ensures !failed ==> BeforeWave(k + 1) && pending < old(pending)
    {
      hide InRun, BeforeWave, DuringWave, SomeFailed, Ids;
      var inflight := StartWave(k);
      JoinWave(k, inflight);
      if failed {
        SkipPending(k);
      } else {
        WaveEnds(k);
      }
    }

    /** A wave that ends without a failure leaves exactly the next wave ready. */
    lemma {:induction false} WaveEnds(k: nat)
      requires DuringWave(k, []) && !failed
      ensures BeforeWave(k + 1)
    {
      hide InRun, Acyclic, Inverted, Indexed, Wave, Done, Counted;
      assert Ids([]) == {};
      assert sess.written.Keys == Done(plan, k + 1);
      ZeroMeansUnblocked(plan, depsLeft, k + 1);
    }

    /** The waves are over, or a cancel has been seen. */
    ghost predicate ToFinish(k: nat)
      reads this, executor
    {
      && InRun() && Acyclic(plan) && sess.status == Running && AllSucceeded(sess)
      && sess.started.Keys == sess.written.Keys == Done(plan, k) && (sess.canceled || Wave(plan, k) == {})
    }

    lemma {:induction false} NothingReady(k: nat)
      requires BeforeWave(k) && ready == []
      ensures ToFinish(k)
    {
      hide InRun, Acyclic, Inverted, Indexed, Wave, Done, Counted, Flagged;
    }

    /** The check before a wave is taken up. */
    method StopSeen(ghost k: nat) returns (stop: bool)
      requires BeforeWave(k)
      modifies this`canceled, this`tr, this`joint, this`sess
      ensures if stop then ToFinish(k) else BeforeWave(k)
    {
      hide InRun, Acyclic, Inverted, Indexed, Wave, Done, Counted, Flagged;
      stop := IsCanceled();
    }

    /** The check after the last wave. */
    method FinishWaves(ghost k: nat)
      requires ToFinish(k)
      modifies this`meta, this`disk, this`canceled, this`tr, this`joint, this`sess
      ensures InRun() && Finished(tr)
    {
      hide InRun, Acyclic, Wave, Done, Finished;
      var late := IsCanceled();
      Conclude(if late then Failed else Success, k);
    }

    method RunWaves()
      requires BeforeWave(0)
      modifies this`results, this`disk, this`meta, this`canceled, this`pending, this`ready, this`dropped, this`failed
      modifies this`depsLeft, this`tr, this`joint, this`sess, executor
      ensures InRun() && Finished(tr) && old(executor.done) <= executor.done
    {
      hide InRun, Finished, BeforeWave, ToFinish, SomeFailed, Ids;
      ghost var k: nat := 0;
      var stop := false;
      while ready != [] && !stop
        invariant if stop then ToFinish(k) else BeforeWave(k)
        invariant old(executor.done) <= executor.done
        decreases pending, !stop
      {
        stop := StopSeen(k);
        if !stop {
          Round(k);
          if failed {
            Conclude(Failed, k);
            return;
          }
          k := k + 1;
        }
      }
      if !stop {
        NothingReady(k);
      }
      FinishWaves(k);
    }

    // ----- Submit, crash, resume, rerun -----

    /** Between operations: the executor is sound, every success on disk is backed by the ledger, and a
        loaded task mirrors the disk. */
    ghost predicate Idle()
      reads this`loaded, this`defs, this`meta, this`results, this`disk, executor
    {
      && executor.Valid() && Keyed(disk.rows) && Joint.RowsBacked(disk.rows, executor.trace)
      && (loaded ==>
            && meta == disk.status && Agree(results, disk.rows)
            && (defs == map[] || defs.Keys == disk.rows.Keys)
            && forall id :: id in defs && id in disk.rows ==> defs[id] == disk.rows[id].node)
    }

    /** Submits a new task: the rows first, then the run. */
    method Submit(nodes: Plan)
      requires UniqueIds(nodes) && executor.Valid()
      modifies this, executor
      ensures Idle() && loaded
      ensures disk0 == Disk(Pending, Skeleton(nodes)) && plan == nodes
      ensures InRun() && Finished(tr) && old(executor.done) <= executor.done
      ensures JointRuns.JSubmitted(nodes, keepsDeps, disk, old(executor.trace), joint, executor.trace)
    {
      loaded, defs, results, meta := true, map[], map[], Pending;
      disk := Disk(Pending, map[]);
      var i := 0;
      while i < |nodes|
        invariant 0 <= i <= |nodes| && loaded && results == map[]
        invariant disk == Disk(Pending, Skeleton(nodes[..i]))
        invariant executor.Valid() && executor.done == old(executor.done) && executor.trace == old(executor.trace)
      {
        disk := disk.(rows := disk.rows[nodes[i].id := Row(nodes[i], UNRUN)]);
        assert nodes[..i + 1][..i] == nodes[..i];
        i := i + 1;
      }
      assert nodes[..i] == nodes;
      SkeletonRows(nodes);
      defs := IndexNodes(nodes);
      Execute(nodes);
      AgreeAfter(keepsDeps, nodes, tr, disk0, results0);
      DefinitionsStay(keepsDeps, nodes, tr, disk0);
      Joint.SkeletonIsBacked(nodes, ledger0);
      RunIsBacked();
      IsSubmission();
    }

    /** A first run is a submission in the sense of the joint histories. */
    lemma {:induction false} IsSubmission()
      requires InRun() && disk0 == Disk(Pending, Skeleton(plan))
      ensures JointRuns.JSubmitted(plan, keepsDeps, disk, ledger0, joint, executor.trace)
    {
      hide Legal, Fold, Apply, Overlay, Joint.Tasks, Joint.Steps, Joint.Backed, Ledger.Legal, Ledger.Fold;
      assert plan[..|plan|] == plan;
      assert Runs.Submitted(plan, keepsDeps, |plan|, Joint.Tasks(joint), disk);
    }

    /** A resumed run is a step of the joint histories. */
    lemma {:induction false} IsResumption()
      requires InRun() && plan != [] && ToRun(disk0, plan) && disk0.status in {Pending, Running}
      ensures JointRuns.JStep(keepsDeps, disk0, Runs.Resume(plan, tr), disk, ledger0, joint, executor.trace)
    {
      hide Legal, Fold, Apply, Overlay, Joint.Tasks, Joint.Steps, Joint.Backed, Ledger.Legal, Ledger.Fold, ToRun;
    }

    /** A run keeps the successes on disk backed. */
    lemma {:induction false} RunIsBacked()
      requires InRun() && Joint.RowsBacked(disk0.rows, ledger0) && Joint.SameWork(plan, disk0.rows)
      ensures Joint.RowsBacked(disk.rows, executor.trace)
    {
      hide Legal, Fold, Apply, Overlay, Joint.Tasks, Joint.Steps, Joint.Backed, Joint.RowsBacked, Joint.SameWork;
      hide Ledger.Legal, Ledger.Fold;
      Joint.RunKeepsBacked(keepsDeps, plan, disk0, ledger0, joint);
    }

    /** The process dies: memory is gone, the disk stays. */
    method Crash()
      requires executor.Valid() && Keyed(disk.rows) && Joint.RowsBacked(disk.rows, executor.trace)
      modifies this`loaded, this`defs, this`meta, this`results, this`canceled, executor`trace
      ensures Idle() && !loaded && executor.trace == old(executor.trace) + [Ledger.Event.Crash]
    {
      hide Joint.RowsBacked;
      Joint.RowsStayBacked(disk.rows, executor.trace, [Ledger.Event.Crash]);
      executor.Crash();
      loaded, defs, meta, results, canceled := false, map[], Pending, map[], false;
    }

    /** The startup scan gives up a task that was interrupted. */
    method MarkInterrupted()
      requires Idle() && !loaded
      modifies this`disk
      ensures Idle()
      ensures if old(disk).status in {Pending, Running, Failed} then
          JointRuns.JStep(keepsDeps, old(disk), Runs.GiveUp, disk, executor.trace, [], executor.trace)
        else disk == old(disk)
    {
      hide Joint.RowsBacked, Ledger.Executor.Valid, JointRuns.JStep, Keyed;
      if disk.status in {Pending, Running} {
        disk := disk.(status := Failed);
      }
      if disk.status == Failed {
        SkipUnfinished();
        IsGivingUp(old(disk));
      }
    }

    method SkipUnfinished()
      modifies this`disk
      ensures disk == Runs.GivenUp(old(disk)).(status := old(disk).status)
    {
      ghost var goal := Runs.GivenUp(disk).rows;
      var rest := disk.rows.Keys;
      while rest != {}
        invariant rest <= disk.rows.Keys == goal.Keys && disk.status == old(disk).status
        invariant forall id :: id in disk.rows ==>
          disk.rows[id] == if id in rest then old(disk).rows[id] else goal[id]
        decreases rest
      {
        var id :| id in rest;
        rest := rest - {id};
        var row := disk.rows[id];
        if Unfinished(row) {
          disk := disk.(rows := disk.rows[id := row.(result := row.result.(status := Skipped))]);
        }
      }
    }

    /** Giving up is a step of the joint histories. */
    lemma {:induction false} IsGivingUp(d: Disk)
      requires executor.Valid() && disk == Runs.GivenUp(d) && d.status in {Pending, Running, Failed}
      requires Keyed(d.rows) && Joint.RowsBacked(d.rows, executor.trace)
      ensures JointRuns.JStep(keepsDeps, d, Runs.GiveUp, disk, executor.trace, [], executor.trace)
      ensures Keyed(disk.rows) && Joint.RowsBacked(disk.rows, executor.trace)
    {
      Joint.NothingYet(executor.trace);
      hide Joint.RowsBacked, Ledger.Fold, Ledger.Legal;
      JointRuns.GiveUpKeepsBacked(d, executor.trace, [], executor.trace);
    }

    /** The unfinished rows, pruned, in whatever order the store returns them. */
    method CollectToRun() returns (nodes: Plan)
      requires Idle()
      ensures ToRun(disk, nodes)
    {
      nodes := [];
      var rest := disk.rows.Keys;
      while rest != {}
        invariant rest <= disk.rows.Keys && Ids(nodes) !! rest && UniqueIds(nodes)
        invariant forall n :: n in nodes ==>
          n.id in disk.rows && Unfinished(disk.rows[n.id]) && n == Pruned(disk.rows[n.id], disk.rows)
        invariant forall id :: id in disk.rows && id !in rest && Unfinished(disk.rows[id]) ==> id in Ids(nodes)
        decreases rest
      {
        var id :| id in rest;
        rest := rest - {id};
        if Unfinished(disk.rows[id]) {
          ghost var before := nodes;
          nodes := nodes + [Pruned(disk.rows[id], disk.rows)];
          assert Ids(nodes) == Ids(before) + {id};
        }
      }
    }

    /** Takes over an unfinished task: recorded results are kept, only unfinished nodes run again. */
    method ResumeOne() returns (resumed: bool)
      requires Idle()
      modifies this, executor
      ensures Idle()
      ensures resumed <==>
        old(disk.status in {Pending, Running} && exists id :: id in disk.rows && Unfinished(disk.rows[id]))
      ensures !resumed ==> disk == old(disk) && executor.done == old(executor.done)
      ensures resumed ==>
        loaded && disk0 == old(disk) && ToRun(old(disk), plan) && InRun() && Finished(tr)
        && old(executor.done) <= executor.done
        && JointRuns.JStep(
             keepsDeps, old(disk), Runs.Resume(plan, tr), disk, old(executor.trace), joint, executor.trace)
    {
      hide Keyed, Agree, Unfinished, Succeeded, InRun, Finished, Pruned, JointRuns.JStep;
      if disk.status !in {Pending, Running} {
        return false;
      }
      var nodes := CollectToRun();
      if nodes == [] {
        return false;
      }
      assert nodes[0] in nodes;
      TakeOver(nodes);
      IsResumption();
      return true;
    }

    method TakeOver(nodes: Plan)
      requires Idle() && ToRun(disk, nodes)
      modifies this, executor
      ensures Idle() && loaded && disk0 == old(disk) && plan == nodes && InRun() && Finished(tr)
      ensures old(executor.done) <= executor.done && ledger0 == old(executor.trace)
    {
      hide Pruned, Legal, Fold, Apply, Finished, Ledger.Executor.Valid, Joint.RowsBacked, Joint.SameWork;
      results := map id | id in disk.rows ::
        if Unfinished(disk.rows[id]) then NodeResult(Running, 0) else disk.rows[id].result;
      loaded, defs, meta := true, map[], Running;
      assert Agree(results, disk.rows);
      assert forall id :: id in Ids(nodes) ==> id in disk.rows && Unfinished(disk.rows[id]);
      Joint.ResumeIsSameWork(disk, nodes);
      Execute(nodes);
      hide Agree, Keyed, Unfinished, UniqueIds, ToRun, InRun;
      AfterTakeOver();
    }

    lemma {:induction false} AfterTakeOver()
      requires InRun() && Agree(results0, disk0.rows) && Keyed(disk0.rows)
      requires forall id :: id in Ids(plan) ==> id in disk0.rows && Unfinished(disk0.rows[id])
      requires Joint.RowsBacked(disk0.rows, ledger0) && Joint.SameWork(plan, disk0.rows)
      ensures Agree(results, disk.rows) && Keyed(disk.rows) && Joint.RowsBacked(disk.rows, executor.trace)
      ensures executor.Valid() && meta == disk.status
    {
      hide Agree, Keyed, Unfinished, Legal, Fold, Apply, Overlay, Joined, Joint.RowsBacked, Joint.SameWork;
      AgreeAfter(keepsDeps, plan, tr, disk0, results0);
      RowsStayKeyed(keepsDeps, tr, disk0);
      RunIsBacked();
    }

    /** Rebuilds the in-memory task from the disk. */
    method Hydrate()
      requires Idle()
      modifies this`loaded, this`defs, this`meta, this`results
      ensures Idle() && loaded && defs.Keys == disk.rows.Keys
    {
      results := map id | id in disk.rows :: disk.rows[id].result;
      defs := map id | id in disk.rows :: disk.rows[id].node;
      meta, loaded := disk.status, true;
    }

    /** Manual rerun of one failed or skipped node. It is refused exactly if the task has not failed,
        the node is not failed or skipped, or one of its dependencies is not successful. */
    method RerunNode(id: NodeId) returns (r: RerunOutcome, ghost j: Joint.JTrace)
      requires Idle()
      modifies this, executor
      ensures Idle()
      ensures r.Retried? <==> old(id in disk.rows && MayRerun(disk, disk.rows[id].node))
      ensures !r.Retried? ==> disk == old(disk) && executor.done == old(executor.done)
      ensures r.Retried? ==>
        var n := old(disk).rows[id].node;
        && RerunResult(n, r.result)
        && disk == Apply(keepsDeps, old(disk), RerunTrace(keepsDeps, old(disk), n, r.result))
        && (r.result.status == Success ==> Joint.Backs(executor.trace, n))
        && Ledger.Performed(executor.trace, n, r.result.attempts, r.result.status == Success)
        && old(executor.done) <= executor.done
        && JointRuns.JStep(
             keepsDeps, old(disk), Runs.Rerun(id, r.result, 4), disk, old(executor.trace), j, executor.trace)
    {
      hide Apply, RerunTrace, Succeeded, RerunResult, Joint.Backs;
      hide Ledger.Performed, Ledger.Executor.Valid, JointRuns.JStep;
      j := [];
      if !loaded {
        Hydrate();
      }
      if meta != Failed {
        return TaskNotFailed, j;
      }
      if id !in defs {
        Hydrate();
      }
      if id !in defs {
        return Undefined, j;
      }
      var n := defs[id];
      if StatusOf(results, id) !in {Failed, Skipped} {
        return NothingToRetry, j;
      }
      var admitted := UpstreamSucceeded(n);
      if !admitted {
        return UpstreamNotSuccessful, j;
      }
      var result;
      result, j := RerunAdmitted(n);
      return Retried(result), j;
    }

    method UpstreamSucceeded(n: TaskNode) returns (ok: bool)
      requires Agree(results, disk.rows)
      ensures ok <==> forall dep :: dep in n.deps ==> Succeeded(disk.rows, dep)
    {
      var i := 0;
      while i < |n.deps|
        invariant 0 <= i <= |n.deps|
        invariant forall j :: 0 <= j < i ==> Succeeded(disk.rows, n.deps[j])
      {
        if StatusOf(results, n.deps[i]) != Success {
          assert !Succeeded(disk.rows, n.deps[i]);
          return false;
        }
        i := i + 1;
      }
      return true;
    }

    method RerunAdmitted(n: TaskNode) returns (r: NodeResult, ghost j: Joint.JTrace)
      requires Idle() && loaded && defs.Keys == disk.rows.Keys && n.id in defs && defs[n.id] == n
      requires MayRerun(disk, n)
      modifies this`meta, this`disk, this`results, executor
      ensures Idle() && RerunResult(n, r)
      ensures disk == Apply(keepsDeps, old(disk), RerunTrace(keepsDeps, old(disk), n, r))
      ensures r.status == Success ==> Joint.Backs(executor.trace, n)
      ensures Ledger.Performed(executor.trace, n, r.attempts, r.status == Success)
      ensures old(executor.done) <= executor.done
      ensures JointRuns.JStep(
        keepsDeps, old(disk), Runs.Rerun(n.id, r, 4), disk, old(executor.trace), j, executor.trace)
    {
      hide Joint.RowsBacked, Joint.SameWork, UniqueIds, Apply, RerunTrace, AllSuccessOrSkipped, MayRerun, Keyed, Agree;
      hide Ledger.AllRecorded, Ledger.Executor.Valid, JointRuns.JStep, JointRuns.RerunOrder, Joint.Backs;
      hide Ledger.Performed, Ledger.StepEvents, Ledger.Tries, Ledger.RunLog;
      Joint.OneNodeIsSameWork(n, disk.rows);
      meta := Running;
      disk := disk.(status := Running);
      var ok, attempts;
      ghost var log;
      ok, attempts, log := executor.RunNode(n);
      r := NodeResult(if ok then Success else Failed, attempts);
      if ok {
        NodeIsBacked(n, attempts);
      }
      ghost var more := executor.trace[|old(executor.trace)|..];
      assert executor.trace == old(executor.trace) + more;
      Joint.RowsStayBacked(disk.rows, old(executor.trace), more);
      Joint.WriteKeepsBacked(keepsDeps, [n], disk.rows, n, r, executor.trace);
      RecordRerun(n, r);
      ApplyRerun(keepsDeps, old(disk), n, r);
      j := JointRuns.RerunOrder(keepsDeps, old(disk), n, r, more);
      IsRerun(old(disk), n, r, old(executor.trace), more);
    }

    /** A manual rerun is a step of the joint histories. */
    lemma {:induction false} IsRerun(d: Disk, n: TaskNode, r: NodeResult, l: Ledger.Trace, more: Ledger.Trace)
      requires executor.Valid() && executor.trace == l + more
      requires n.id in d.rows && d.rows[n.id].node == n && MayRerun(d, n) && RerunResult(n, r)
      requires disk == Apply(keepsDeps, d, RerunTrace(keepsDeps, d, n, r))
      requires r.status == Success ==> Joint.Backs(executor.trace, n)
      requires Ledger.Performed(executor.trace, n, r.attempts, r.status == Success)
      ensures JointRuns.JStep(
        keepsDeps, d, Runs.Rerun(n.id, r, 4), disk, l, JointRuns.RerunOrder(keepsDeps, d, n, r, more), executor.trace)
    {
      hide Apply, MayRerun, RerunResult, Joint.Backs, Ledger.Performed, Ledger.Legal, JointRuns.RerunOrder;
      hide JointRuns.Along;
      JointRuns.RerunInOrder(keepsDeps, d, n, r, l, more);
      var tr := RerunTrace(keepsDeps, d, n, r);
      assert tr[..4] == tr;
    }

    /** Records the result of a rerun and recomputes the task status. */
    method RecordRerun(n: TaskNode, r: NodeResult)
      requires Keyed(disk.rows) && Agree(results, disk.rows)
      requires defs.Keys == disk.rows.Keys && n.id in defs && defs[n.id] == n
      requires forall id :: id in defs ==> defs[id] == disk.rows[id].node
      modifies this`meta, this`disk, this`results
      ensures disk.rows == Upsert(keepsDeps, old(disk).rows, n, r) && meta == disk.status
      ensures disk.status == if AllSuccessOrSkipped(disk.rows) then Success else Failed
      ensures Keyed(disk.rows) && Agree(results, disk.rows) && defs.Keys == disk.rows.Keys
      ensures forall id :: id in defs ==> defs[id] == disk.rows[id].node
    {
      hide Agree, Keyed, AllSuccessOrSkipped;
      AgreeUpserted(keepsDeps, results, disk.rows, n, r);
      results := results[n.id := r];
      disk := disk.(rows := Upsert(keepsDeps, disk.rows, n, r));
      meta := Summary();
      disk := disk.(status := meta);
    }

    /** The task succeeds exactly if every defined node is successful or skipped. */
    method Summary() returns (fin: TaskStatus)
      requires Agree(results, disk.rows) && defs.Keys == disk.rows.Keys
      ensures fin == if AllSuccessOrSkipped(disk.rows) then Success else Failed
    {
      var keys := defs.Keys;
      while keys != {}
        invariant keys <= defs.Keys
        invariant forall id :: id in defs && id !in keys ==> StatusOf(results, id) in {Success, Skipped}
        decreases keys
      {
        var k :| k in keys;
        if StatusOf(results, k) !in {Success, Skipped} {
          assert disk.rows[k].result.status !in {Success, Skipped};
          return Failed;
        }
        keys := keys - {k};
      }
      assert forall id :: id in disk.rows ==> id in defs && StatusOf(results, id) in {Success, Skipped};
      return Success;
    }
  }
}
