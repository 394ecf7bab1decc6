/** Whole histories of a task: submit, crash at any point, resume, manual rerun, and the startup scan
    that gives up interrupted tasks, in any order and any number. Each operation is the relation that
    the scheduler's method establishes, cut off after any of its writes. */
module Runs {
  import opened Graph
  import opened Waves
  import opened Sessions
  import opened Store

  datatype Op =
    | Resume(nodes: Plan, tr: Trace)
    | Rerun(id: NodeId, result: NodeResult, cut: nat)
    | GiveUp

  /** Submitting writes the rows one by one; a crash may leave only the first `n` of them, and the run
      itself starts once all are there. */
  ghost predicate Submitted(plan: Plan, keepsDeps: bool, n: nat, tr: Trace, d: Disk) {
    && n <= |plan| && Legal(plan, tr) && (n < |plan| ==> tr == [])
    && d == Apply(keepsDeps, Disk(Pending, Skeleton(plan[..n])), tr)
  }

  /** Tasks that were running at startup are marked failed and their unfinished nodes skipped. */
  function GivenUp(d: Disk): Disk {
    Disk(Failed, map id | id in d.rows ::
      if Unfinished(d.rows[id]) then d.rows[id].(result := d.rows[id].result.(status := Skipped)) else d.rows[id])
  }

  ghost predicate OpStep(keepsDeps: bool, d: Disk, op: Op, d': Disk) {
    match op
    case Resume(nodes, tr) =>
      && d.status in {Pending, Running} && nodes != [] && ToRun(d, nodes)
      && Legal(nodes, tr) && d' == Apply(keepsDeps, d, tr)
    case Rerun(id, r, cut) =>
      && id in d.rows && MayRerun(d, d.rows[id].node) && RerunResult(d.rows[id].node, r) && cut <= 4
      && d' == Apply(keepsDeps, d, RerunTrace(keepsDeps, d, d.rows[id].node, r)[..cut])
    case GiveUp => d.status in {Pending, Running, Failed} && d' == GivenUp(d)
  }

  /** `ds` is a history of the disk of one task. */
  ghost predicate History(plan: Plan, keepsDeps: bool, ops: seq<Op>, ds: seq<Disk>) {
    && |ds| == |ops| + 1
    && (exists n, tr :: Submitted(plan, keepsDeps, n, tr, ds[0]))
    && forall i, j :: 0 <= i && j == i + 1 && j < |ds| ==> OpStep(keepsDeps, ds[i], ops[i], ds[j])
  }

  // ----- The invariant -----

  /** `m` runs the plan's node `n`, except that edges to recorded successes may be gone. */
  ghost predicate Fits(n: TaskNode, m: TaskNode, rows: map<NodeId, Row>) {
    && m.id == n.id && m.retries == n.retries && m.steps == n.steps
    && (forall dep :: dep in m.deps ==> dep in n.deps)
    && (forall dep :: dep in n.deps ==> dep in m.deps || Succeeded(rows, dep))
  }

  ghost predicate Sound(plan: Plan, rows: map<NodeId, Row>) {
    && Keyed(rows) && rows.Keys <= Ids(plan)
    && (forall n :: n in plan && n.id in rows ==> Fits(n, rows[n.id].node, rows))
    && (forall n, dep :: n in plan && Succeeded(rows, n.id) && dep in n.deps ==> Succeeded(rows, dep))
  }

  /** A list of nodes that may be run on these rows: unfinished ones that fit the plan. */
  ghost predicate Runnable(plan: Plan, rows: map<NodeId, Row>, nodes: Plan) {
    && UniqueIds(nodes)
    && forall m :: m in nodes ==>
         m.id in rows && Unfinished(rows[m.id]) && forall n :: n in plan && n.id == m.id ==> Fits(n, m, rows)
  }

  /** A run only touches rows of its own nodes, and their definitions stay or become the node's. */
  ghost predicate Touched(rows: map<NodeId, Row>, nodes: Plan, s: Session, rows': map<NodeId, Row>) {
    && rows'.Keys == rows.Keys && s.written.Keys <= Ids(nodes)
    && forall id :: id in rows ==>
         if id !in s.written then rows'[id] == rows[id]
         else rows'[id].result == s.written[id]
              && (rows'[id].node == rows[id].node || (rows'[id].node in nodes && rows'[id].node.id == id))
  }

  lemma {:induction false} RunTouches(keepsDeps: bool, nodes: Plan, d: Disk, tr: Trace)
    requires Legal(nodes, tr) && Ids(nodes) <= d.rows.Keys
    ensures Touched(d.rows, nodes, Fold(tr), Apply(keepsDeps, d, tr).rows)
  {
    if tr != [] {
      var init, e := tr[..|tr| - 1], tr[|tr| - 1];
      RunTouches(keepsDeps, nodes, d, init);
      if e.Wrote? {
        assert e.node.id in Ids(nodes);
      }
    }
  }

  lemma {:induction false} RunKeepsSuccess(
      plan: Plan, rows: map<NodeId, Row>, nodes: Plan, s: Session, rows': map<NodeId, Row>, id: NodeId)
    requires Runnable(plan, rows, nodes) && Touched(rows, nodes, s, rows')
    ensures Succeeded(rows, id) ==> Succeeded(rows', id) && rows'[id] == rows[id]
  {
    if id in Ids(nodes) {
      assert !Succeeded(rows, id);
    }
  }

  /** What a change of the rows must keep for one node of the plan. */
  ghost predicate NodeKept(n: TaskNode, rows: map<NodeId, Row>, rows': map<NodeId, Row>) {
    && n.id in rows' && Fits(n, rows'[n.id].node, rows)
    && (Succeeded(rows', n.id) ==> forall dep :: dep in n.deps ==> Succeeded(rows', dep))
  }

  lemma {:induction false} SoundFrom(plan: Plan, rows: map<NodeId, Row>, rows': map<NodeId, Row>)
    requires Sound(plan, rows) && Keyed(rows') && rows'.Keys == rows.Keys
    requires forall id :: Succeeded(rows, id) ==> Succeeded(rows', id)
    requires forall n :: n in plan && n.id in rows ==> NodeKept(n, rows, rows')
    ensures Sound(plan, rows')
  {
    forall n, dep | n in plan && Succeeded(rows', n.id) && dep in n.deps ensures Succeeded(rows', dep) {
      assert NodeKept(n, rows, rows');
    }
    forall n | n in plan && n.id in rows' ensures Fits(n, rows'[n.id].node, rows') {
      assert NodeKept(n, rows, rows');
    }
  }

  lemma {:induction false} RunKeepsNode(
      plan: Plan, rows: map<NodeId, Row>, nodes: Plan, tr: Trace, rows': map<NodeId, Row>, n: TaskNode)
    requires Sound(plan, rows) && Runnable(plan, rows, nodes) && Legal(nodes, tr)
    requires Touched(rows, nodes, Fold(tr), rows') && n in plan && n.id in rows
    requires forall id :: Succeeded(rows, id) ==> Succeeded(rows', id)
    ensures NodeKept(n, rows, rows')
  {
    hide Acyclic, Legal, Fold;
    var s := Fold(tr);
    assert Fits(n, rows[n.id].node, rows);
    if n.id in s.written {
      var m :| m in nodes && m.id == n.id;
      assert Fits(n, m, rows);
      assert rows'[n.id].node in nodes ==> Fits(n, rows'[n.id].node, rows);
      if Succeeded(rows', n.id) {
        SuccessIsClosed(nodes, tr, m);
        forall dep | dep in n.deps ensures Succeeded(rows', dep) {
          assert dep in m.deps ==> dep in s.written && dep in rows';
        }
      }
    }
  }

  /** Running any legal trace, to its end or cut off anywhere, keeps the rows sound. */
  lemma {:induction false} RunKeepsSound(plan: Plan, keepsDeps: bool, d: Disk, nodes: Plan, tr: Trace)
    requires UniqueIds(plan) && Sound(plan, d.rows) && Runnable(plan, d.rows, nodes) && Legal(nodes, tr)
    ensures Sound(plan, Apply(keepsDeps, d, tr).rows)
  {
    hide Legal, Fold, Apply, NodeKept;
    var rows, rows', s := d.rows, Apply(keepsDeps, d, tr).rows, Fold(tr);
    RunTouches(keepsDeps, nodes, d, tr);
    forall id ensures Succeeded(rows, id) ==> Succeeded(rows', id) {
      RunKeepsSuccess(plan, rows, nodes, s, rows', id);
    }
    forall n | n in plan && n.id in rows ensures NodeKept(n, rows, rows') {
      RunKeepsNode(plan, rows, nodes, tr, rows', n);
    }
    SoundFrom(plan, rows, rows');
  }

  lemma {:induction false} SkeletonIsSound(plan: Plan, part: Plan)
    requires UniqueIds(plan) && UniqueIds(part) && forall m :: m in part ==> m in plan
    ensures Sound(plan, Skeleton(part)) && forall m :: m in part ==>
      m.id in Skeleton(part) && Skeleton(part)[m.id] == Row(m, UNRUN)
  {
    var rows := Skeleton(part);
    SkeletonRows(part);
    forall id | id in rows ensures rows[id].node.id == id && rows[id].result == UNRUN {
      var m :| m in part && m.id == id;
    }
    forall n | n in plan && n.id in rows ensures Fits(n, rows[n.id].node, rows) {
      var m :| m in part && m.id == n.id;
      SameNode(plan, m, n);
    }
  }

  lemma {:induction false} WholePlanIsRunnable(plan: Plan)
    requires UniqueIds(plan) && Sound(plan, Skeleton(plan))
    requires forall m :: m in plan ==> m.id in Skeleton(plan) && Skeleton(plan)[m.id] == Row(m, UNRUN)
    ensures Runnable(plan, Skeleton(plan), plan)
  {
    forall m, n | m in plan && n in plan && n.id == m.id ensures Fits(n, m, Skeleton(plan)) {
      SameNode(plan, m, n);
    }
  }

  lemma {:induction false} SubmittedIsSound(plan: Plan, keepsDeps: bool, n: nat, tr: Trace, d: Disk)
    requires UniqueIds(plan) && Submitted(plan, keepsDeps, n, tr, d)
    ensures Sound(plan, d.rows)
  {
    hide Sound, Runnable, Skeleton, Legal;
    var part := plan[..n];
    assert forall i :: 0 <= i < n ==> part[i] == plan[i];
    SkeletonIsSound(plan, part);
    if tr != [] {
      assert part == plan;
      WholePlanIsRunnable(plan);
      RunKeepsSound(plan, keepsDeps, Disk(Pending, Skeleton(part)), plan, tr);
    }
  }

  lemma {:induction false} SameNode(plan: Plan, m: TaskNode, k: TaskNode)
    requires UniqueIds(plan) && m in plan && k in plan && m.id == k.id
    ensures m == k
  {
  }

  lemma {:induction false} ToRunIsRunnable(plan: Plan, d: Disk, nodes: Plan)
    requires UniqueIds(plan) && Sound(plan, d.rows) && ToRun(d, nodes)
    ensures Runnable(plan, d.rows, nodes)
  {
    forall m | m in nodes
      ensures m.id in d.rows && Unfinished(d.rows[m.id]) && forall n :: n in plan && n.id == m.id ==> Fits(n, m, d.rows)
    {
      UnsatisfiedMembers(d.rows[m.id].node.deps, d.rows);
    }
  }

  lemma {:induction false} RerunWrites(keepsDeps: bool, d: Disk, n: TaskNode, r: NodeResult, cut: nat)
    requires cut <= 4
    ensures var d' := Apply(keepsDeps, d, RerunTrace(keepsDeps, d, n, r)[..cut]);
      d'.rows == if cut <= 2 then d.rows else Upsert(keepsDeps, d.rows, n, r)
  {
    var tr := RerunTrace(keepsDeps, d, n, r);
    assert tr[..4] == tr && tr[..4][..3] == tr[..3] && tr[..3][..2] == tr[..2] && tr[..2][..1] == tr[..1];
    assert tr[..1][..0] == [];
    assert Apply(keepsDeps, d, tr[..0]) == d;
    assert Apply(keepsDeps, d, tr[..1]).rows == d.rows;
    assert Apply(keepsDeps, d, tr[..2]).rows == d.rows;
    assert Apply(keepsDeps, d, tr[..3]).rows == Upsert(keepsDeps, d.rows, n, r);
  }

  lemma {:induction false} RerunKeepsSound(
      plan: Plan, keepsDeps: bool, rows: map<NodeId, Row>, id: NodeId, r: NodeResult)
    requires UniqueIds(plan) && Sound(plan, rows) && id in rows && !Succeeded(rows, id)
    requires forall dep :: dep in rows[id].node.deps ==> Succeeded(rows, dep)
    ensures Sound(plan, Upsert(keepsDeps, rows, rows[id].node, r))
  {
    var rows' := Upsert(keepsDeps, rows, rows[id].node, r);
    assert rows[id].node.id == id;
    forall n | n in plan && n.id in rows ensures NodeKept(n, rows, rows') {
      assert Fits(n, rows[n.id].node, rows);
    }
    SoundFrom(plan, rows, rows');
  }

  lemma {:induction false} GivingUpKeepsSound(plan: Plan, d: Disk)
    requires Sound(plan, d.rows)
    ensures Sound(plan, GivenUp(d).rows)
  {
    var rows, rows' := d.rows, GivenUp(d).rows;
    forall id ensures Succeeded(rows, id) <==> Succeeded(rows', id) {
    }
    forall n | n in plan && n.id in rows ensures NodeKept(n, rows, rows') {
      assert Fits(n, rows[n.id].node, rows);
    }
    SoundFrom(plan, rows, rows');
  }

  lemma {:induction false} StepKeepsSound(plan: Plan, keepsDeps: bool, d: Disk, op: Op, d': Disk)
    requires UniqueIds(plan) && Sound(plan, d.rows) && OpStep(keepsDeps, d, op, d')
    ensures Sound(plan, d'.rows)
  {
    match op
    case Resume(nodes, tr) =>
      hide Sound;
      ToRunIsRunnable(plan, d, nodes);
      RunKeepsSound(plan, keepsDeps, d, nodes, tr);
    case Rerun(id, r, cut) =>
      assert d.rows[id].node.id == id;
      hide Sound;
      RerunWrites(keepsDeps, d, d.rows[id].node, r, cut);
      RerunKeepsSound(plan, keepsDeps, d.rows, id, r);
    case GiveUp =>
      GivingUpKeepsSound(plan, d);
  }

  /** Over every history, at every moment, the successful nodes are closed under the dependencies of
      the plan that was submitted, even though resume forgets edges. */
  lemma {:induction false} SuccessStaysClosed(plan: Plan, keepsDeps: bool, ops: seq<Op>, ds: seq<Disk>, i: nat)
    requires UniqueIds(plan) && History(plan, keepsDeps, ops, ds) && i < |ds|
    ensures Sound(plan, ds[i].rows)
  {
    if i == 0 {
      var n, tr :| Submitted(plan, keepsDeps, n, tr, ds[0]);
      SubmittedIsSound(plan, keepsDeps, n, tr, ds[0]);
    } else {
      SuccessStaysClosed(plan, keepsDeps, ops, ds, i - 1);
      StepKeepsSound(plan, keepsDeps, ds[i - 1], ops[i - 1], ds[i]);
    }
  }

  /** In a resumed run, a node starts only when all of its original dependencies are recorded
      successful on disk. */
  lemma {:induction false} ResumeStartsAreSafe(
      plan: Plan, keepsDeps: bool, d: Disk, nodes: Plan, tr: Trace, i: nat, n: TaskNode)
    requires UniqueIds(plan) && Sound(plan, d.rows) && ToRun(d, nodes) && Legal(nodes, tr)
    requires i < |tr| && tr[i].Started? && n in plan && n.id == tr[i].id
    ensures forall dep :: dep in n.deps ==> Succeeded(Apply(keepsDeps, d, tr[..i]).rows, dep)
  {
    ToRunIsRunnable(plan, d, nodes);
    LegalPrefix(nodes, tr, i);
    RunTouches(keepsDeps, nodes, d, tr[..i]);
    var m :| m in nodes && m.id == n.id;
    StartsAfterDependencies(nodes, tr, i, m);
    forall dep | dep in n.deps ensures Succeeded(Apply(keepsDeps, d, tr[..i]).rows, dep) {
      RunKeepsSuccess(plan, d.rows, nodes, Fold(tr[..i]), Apply(keepsDeps, d, tr[..i]).rows, dep);
      assert dep in m.deps || Succeeded(d.rows, dep);
    }
  }

  /** A rerun node, too, starts only on recorded successes of all of its original dependencies. */
  lemma {:induction false} RerunStartsAreSafe(plan: Plan, d: Disk, n: TaskNode)
    requires UniqueIds(plan) && Sound(plan, d.rows) && n in plan && n.id in d.rows
    requires MayRerun(d, d.rows[n.id].node)
    ensures forall dep :: dep in n.deps ==> Succeeded(d.rows, dep)
  {
    assert Fits(n, d.rows[n.id].node, d.rows);
  }

  // ----- Crash and resume -----

  ghost predicate NothingFailedOrSkipped(rows: map<NodeId, Row>) {
    forall id :: id in rows ==> rows[id].result.status !in {Failed, Skipped}
  }

  ghost predicate AllSuccessful(rows: map<NodeId, Row>) {
    forall id :: id in rows ==> Succeeded(rows, id)
  }

  lemma {:induction false} FewerEdges(nodes: Plan, plan: Plan)
    requires UniqueIds(nodes) && UniqueIds(plan) && Acyclic(plan)
    requires forall m :: m in nodes ==>
      exists n :: n in plan && n.id == m.id && forall dep :: dep in m.deps ==> dep in n.deps
    ensures Acyclic(nodes)
  {
    forall w | Walk(nodes, w) ensures !Repeats(w) {
      forall i, j | 0 <= i && j == i + 1 && j < |w| ensures w[j] in DepsOf(plan, w[i]) {
        assert w[j] in DepsOf(nodes, w[i]);
        if w[i] !in Ids(nodes) {
          DepsOfUnknown(nodes, w[i]);
        }
        var m :| m in nodes && m.id == w[i];
        DepsOfMember(nodes, m);
        var n :| n in plan && n.id == m.id && forall dep :: dep in m.deps ==> dep in n.deps;
        DepsOfMember(plan, n);
      }
      assert Walk(plan, w);
    }
  }

  lemma {:induction false} ResumedPlanIsAcyclic(plan: Plan, d: Disk, nodes: Plan)
    requires UniqueIds(plan) && Acyclic(plan) && Sound(plan, d.rows) && ToRun(d, nodes)
    ensures Acyclic(nodes)
  {
    ToRunIsRunnable(plan, d, nodes);
    forall m | m in nodes
      ensures exists n :: n in plan && n.id == m.id && forall dep :: dep in m.deps ==> dep in n.deps
    {
      assert m.id in Ids(plan);
      var n :| n in plan && n.id == m.id;
      assert Fits(n, m, d.rows);
    }
    FewerEdges(nodes, plan);
  }

  lemma {:induction false} ResumedPlanIsClosed(plan: Plan, d: Disk, nodes: Plan)
    requires UniqueIds(plan) && Closed(plan) && Sound(plan, d.rows) && ToRun(d, nodes)
    requires d.rows.Keys == Ids(plan) && NothingFailedOrSkipped(d.rows)
    ensures Closed(nodes)
  {
    forall m, dep | m in nodes && dep in m.deps ensures dep in Ids(nodes) {
      EdgeStaysInside(plan, d, nodes, m, dep);
    }
  }

  lemma {:induction false} EdgeStaysInside(plan: Plan, d: Disk, nodes: Plan, m: TaskNode, dep: NodeId)
    requires Closed(plan) && Sound(plan, d.rows) && ToRun(d, nodes) && m in nodes && dep in m.deps
    requires d.rows.Keys == Ids(plan) && NothingFailedOrSkipped(d.rows)
    ensures dep in Ids(nodes)
  {
    hide UniqueIds;
    UnsatisfiedMembers(d.rows[m.id].node.deps, d.rows);
    assert m.id in Ids(plan);
    var n :| n in plan && n.id == m.id;
    assert Fits(n, d.rows[n.id].node, d.rows);
    assert dep in n.deps && dep in d.rows;
    assert Unfinished(d.rows[dep]);
  }

  /** A finished run without a failure or a cancel reports success. */
  lemma {:induction false} CleanRunReportsSuccess(nodes: Plan, tr: Trace)
    requires Legal(nodes, tr) && CleanEnd(Fold(tr))
    ensures Fold(tr).status == Success
  {
    EndedBy(nodes, tr);
  }

  ghost predicate CleanEnd(s: Session) {
    s.status in {Success, Failed} && !SomeFailed(s) && !s.canceled
  }

  lemma {:induction false} CleanRunStartsAll(nodes: Plan, tr: Trace)
    requires UniqueIds(nodes) && Closed(nodes) && Acyclic(nodes) && Legal(nodes, tr) && CleanEnd(Fold(tr))
    ensures Fold(tr).status == Success && AllSucceeded(Fold(tr))
    ensures Fold(tr).written.Keys == Fold(tr).started.Keys == Ids(nodes)
  {
    hide Closed, Acyclic, Legal, Fold, Done, Wave;
    CleanRunReportsSuccess(nodes, tr);
    Outcome(nodes, tr);
    var k := RunShape(nodes, tr);
    DoneMonotone(nodes, k + 1, k + 1);
  }

  lemma {:induction false} CleanRunOfClosedPlan(keepsDeps: bool, d: Disk, nodes: Plan, tr: Trace)
    requires UniqueIds(nodes) && Closed(nodes) && Acyclic(nodes) && Legal(nodes, tr) && CleanEnd(Fold(tr))
    requires Ids(nodes) <= d.rows.Keys
    requires forall id :: id in d.rows && id !in Ids(nodes) ==> Succeeded(d.rows, id)
    ensures Fold(tr).status == Success && AllSuccessful(Apply(keepsDeps, d, tr).rows)
    ensures Fold(tr).started.Keys == Ids(nodes)
  {
    hide Closed, Acyclic, Legal, Fold, Apply;
    CleanRunStartsAll(nodes, tr);
    RunTouches(keepsDeps, nodes, d, tr);
  }

  /** Every node of the plan has a successful row. */
  ghost predicate AllRan(plan: Plan, rows: map<NodeId, Row>) {
    rows.Keys == Ids(plan) && AllSuccessful(rows)
  }

  /** A resumed run in which no step fails and that is not canceled always reports success; that is
      the truth exactly if the snapshot had a row for every node and none of them failed or skipped. */
  lemma {:induction false} ResumeReportsTruthIff(plan: Plan, keepsDeps: bool, d: Disk, nodes: Plan, tr: Trace)
    requires UniqueIds(plan) && Closed(plan) && Acyclic(plan)
    requires Sound(plan, d.rows) && ToRun(d, nodes) && Legal(nodes, tr) && CleanEnd(Fold(tr))
    ensures Fold(tr).status == Success
    ensures AllRan(plan, Apply(keepsDeps, d, tr).rows) <==> d.rows.Keys == Ids(plan) && NothingFailedOrSkipped(d.rows)
  {
    hide Closed, Acyclic, Legal, Sound;
    CleanRunReportsSuccess(nodes, tr);
    assert Ids(nodes) <= d.rows.Keys;
    RunTouches(keepsDeps, nodes, d, tr);
    if !NothingFailedOrSkipped(d.rows) {
      var id :| id in d.rows && d.rows[id].result.status in {Failed, Skipped};
      assert id !in Ids(nodes);
      assert !Succeeded(Apply(keepsDeps, d, tr).rows, id);
    } else if d.rows.Keys == Ids(plan) {
      ResumedPlanIsAcyclic(plan, d, nodes);
      ResumedPlanIsClosed(plan, d, nodes);
      CleanRunOfClosedPlan(keepsDeps, d, nodes, tr);
    }
  }

  /** Crash + resume = uninterrupted run. Take any crash of a run of the plan after which no node is
      failed, and any resumed run that ends without a failing step or a cancel. It runs exactly the
      nodes without a recorded success; recorded successes are untouched; and the task and node
      statuses are those of any uninterrupted run without failures. */
  lemma {:induction false} CrashAndResumeEqualsUninterrupted(
      plan: Plan, keepsDeps: bool, before: Trace, nodes: Plan, tr: Trace, whole: Trace)
    requires UniqueIds(plan) && Closed(plan) && Acyclic(plan) && Legal(plan, before)
    requires var d := Apply(keepsDeps, Disk(Pending, Skeleton(plan)), before);
      NothingFailedOrSkipped(d.rows) && ToRun(d, nodes)
    requires Legal(nodes, tr) && CleanEnd(Fold(tr))
    requires Legal(plan, whole) && CleanEnd(Fold(whole))
    ensures var start := Disk(Pending, Skeleton(plan));
      var d := Apply(keepsDeps, start, before);
      var d', u := Apply(keepsDeps, d, tr), Apply(keepsDeps, start, whole);
      && Fold(tr).status == Fold(whole).status == Success
      && d'.rows.Keys == u.rows.Keys == Ids(plan) && AllSuccessful(d'.rows) && AllSuccessful(u.rows)
      && Fold(tr).started.Keys == (set id | id in d.rows && !Succeeded(d.rows, id))
      && forall id :: Succeeded(d.rows, id) ==> id in d'.rows && d'.rows[id] == d.rows[id]
  {
    hide Closed, Acyclic, Legal, Fold, Apply, CleanEnd;
    var start := Disk(Pending, Skeleton(plan));
    var d := Apply(keepsDeps, start, before);
    SkeletonRows(plan);
    CrashIsSound(plan, keepsDeps, before);
    ResumeAfterCrash(plan, keepsDeps, d, nodes, tr);
    RunTouches(keepsDeps, plan, start, before);
    RunTouches(keepsDeps, plan, start, whole);
    CleanRunOfClosedPlan(keepsDeps, start, plan, whole);
  }

  lemma {:induction false} CrashIsSound(plan: Plan, keepsDeps: bool, before: Trace)
    requires UniqueIds(plan) && Legal(plan, before)
    ensures Sound(plan, Apply(keepsDeps, Disk(Pending, Skeleton(plan)), before).rows)
    ensures Apply(keepsDeps, Disk(Pending, Skeleton(plan)), before).rows.Keys == Ids(plan)
  {
    var d := Apply(keepsDeps, Disk(Pending, Skeleton(plan)), before);
    assert plan[..|plan|] == plan;
    assert Submitted(plan, keepsDeps, |plan|, before, d);
    SubmittedIsSound(plan, keepsDeps, |plan|, before, d);
    SkeletonRows(plan);
    RunTouches(keepsDeps, plan, Disk(Pending, Skeleton(plan)), before);
  }

  lemma {:induction false} RunsTheUnfinished(d: Disk, nodes: Plan)
    requires ToRun(d, nodes) && NothingFailedOrSkipped(d.rows)
    ensures Ids(nodes) == set id | id in d.rows && !Succeeded(d.rows, id)
    ensures UniqueIds(nodes)
  {
    hide UniqueIds;
    forall id ensures id in Ids(nodes) <==> id in d.rows && !Succeeded(d.rows, id) {
      if id in Ids(nodes) {
        var n :| n in nodes && n.id == id;
      }
    }
  }

  /** The same from any sound snapshot of a whole plan, however many crashes and resumes led to it. */
  lemma {:induction false} ResumeAfterCrash(plan: Plan, keepsDeps: bool, d: Disk, nodes: Plan, tr: Trace)
    requires UniqueIds(plan) && Closed(plan) && Acyclic(plan)
    requires Sound(plan, d.rows) && d.rows.Keys == Ids(plan) && NothingFailedOrSkipped(d.rows)
    requires ToRun(d, nodes) && Legal(nodes, tr) && CleanEnd(Fold(tr))
    ensures var d' := Apply(keepsDeps, d, tr);
      && Fold(tr).status == Success && d'.rows.Keys == Ids(plan) && AllSuccessful(d'.rows)
      && Fold(tr).started.Keys == (set id | id in d.rows && !Succeeded(d.rows, id))
      && forall id :: Succeeded(d.rows, id) ==> id in d'.rows && d'.rows[id] == d.rows[id]
  {
    RunsTheUnfinished(d, nodes);
    hide Closed, Acyclic, Legal, Fold, Apply, CleanEnd, Sound, Runnable, Ids, NothingFailedOrSkipped;
    ResumedPlanIsAcyclic(plan, d, nodes);
    ResumedPlanIsClosed(plan, d, nodes);
    CleanRunOfClosedPlan(keepsDeps, d, nodes, tr);
    ToRunIsRunnable(plan, d, nodes);
    RunTouches(keepsDeps, nodes, d, tr);
    var d' := Apply(keepsDeps, d, tr);
    forall id ensures Succeeded(d.rows, id) ==> id in d'.rows && d'.rows[id] == d.rows[id] {
      RunKeepsSuccess(plan, d.rows, nodes, Fold(tr), Apply(keepsDeps, d, tr).rows, id);
    }
  }
}
