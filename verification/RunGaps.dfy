/** Histories in which the task row does not tell the truth. Each is reachable from a submit; the exact
    conditions are in modules Sessions and Runs. Histories in which a creation sets its instance running
    too early are in module CreationRuns. */
module RunGaps {
  import opened Graph
  import opened Waves
  import opened Sessions
  import opened Store
  import opened Runs

  const A := TaskNode("a", [], 0, [])
  const B := TaskNode("b", ["a"], 0, [])

  const CHAIN: Plan := [A, B]

  lemma {:induction false} ChainShape()
    ensures UniqueIds(CHAIN) && Ids(CHAIN) == {"a", "b"} && Closed(CHAIN)
    ensures Levels(CHAIN, map["a" := 0, "b" := 1])
  {
    var level: map<NodeId, nat> := map["a" := 0, "b" := 1];
    assert CHAIN[0] == A && CHAIN[1] == B && "a" in B.deps;
    assert forall n :: n in CHAIN ==> n == A || n == B;
    assert OnLevel(level, A) && OnLevel(level, B);
  }

  lemma {:induction false} ChainRows()
    ensures Skeleton(CHAIN) == map["a" := Row(A, UNRUN), "b" := Row(B, UNRUN)]
  {
    ChainShape();
    SkeletonRows(CHAIN);
    assert CHAIN[0] == A && CHAIN[1] == B;
    assert Skeleton(CHAIN).Keys == {"a", "b"};
  }

  lemma {:induction false} ChainWaves()
    ensures UniqueIds(CHAIN) && Ids(CHAIN) == {"a", "b"} && Closed(CHAIN) && Acyclic(CHAIN)
    ensures Done(CHAIN, 0) == {} && Wave(CHAIN, 0) == {"a"} && Done(CHAIN, 1) == {"a"}
    ensures Skeleton(CHAIN) == map["a" := Row(A, UNRUN), "b" := Row(B, UNRUN)]
  {
    hide Levels, OnLevel, Acyclic, Closed, UniqueIds, Ids, Skeleton;
    var level: map<NodeId, nat> := map["a" := 0, "b" := 1];
    ChainShape();
    ChainRows();
    LevelledIsAcyclic(CHAIN, level);
    LevelsAreWaves(CHAIN, level, 0);
    LevelsAreWaves(CHAIN, level, 1);
  }

  lemma {:induction false} SingleWaves()
    ensures UniqueIds([A]) && Ids([A]) == {"a"} && Closed([A]) && Acyclic([A])
    ensures Done([A], 0) == {} && Wave([A], 0) == {"a"} && Done([A], 1) == {"a"} && Wave([A], 1) == {}
    ensures Skeleton([A]) == map["a" := Row(A, UNRUN)]
  {
    var nodes := [A];
    var level: map<NodeId, nat> := map["a" := 0];
    assert nodes[0] == A;
    LevelledIsAcyclic(nodes, level);
    LevelsAreWaves(nodes, level, 0);
    LevelsAreWaves(nodes, level, 1);
    assert nodes[..0] == [];
  }

  lemma {:induction false} OneOp(plan: Plan, n: nat, tr: Trace, d: Disk, op: Op, d': Disk)
    requires Submitted(plan, true, n, tr, d) && OpStep(true, d, op, d')
    ensures History(plan, true, [op], [d, d'])
  {
    var ops, ds := [op], [d, d'];
    assert Submitted(plan, true, n, tr, ds[0]);
    forall i, j | 0 <= i && j == i + 1 && j < |ds| ensures OpStep(true, ds[i], ops[i], ds[j]) {
      assert i == 0 && j == 1;
    }
  }

  /** The run of `a` alone, up to the write of its result. */
  lemma {:induction false} RunA(nodes: Plan, st: TaskStatus) returns (tr: Trace)
    requires (nodes == CHAIN || nodes == [A]) && st in {Success, Failed}
    ensures tr == [TaskSet(Running), Started(0, "a", true), Wrote(A, NodeResult(st, 1))] && Legal(nodes, tr)
    ensures Fold(tr) == Session(Running, map["a" := true], map["a" := NodeResult(st, 1)], false)
    ensures forall k, d :: Apply(k, d, tr) == Disk(Running, Upsert(k, d.rows, A, NodeResult(st, 1)))
  {
    hide Wave, Done, Acyclic, Legal;
    ChainWaves();
    SingleWaves();
    assert nodes[0] == A;
    var t1: Trace := [TaskSet(Running)];
    var t2 := t1 + [Started(0, "a", true)];
    assert Legal(nodes, t1) && Fold(t1) == FRESH.(status := Running)
      && forall k, d :: Apply(k, d, t1) == d.(status := Running)
    by {
      Extend(nodes, [], TaskSet(Running));
      LegalEmpty(nodes);
      assert [] + t1 == t1;
    }
    Extend(nodes, t1, Started(0, "a", true));
    assert Done(nodes, 0 + 1) == {"a"};
    Extend(nodes, t2, Wrote(A, NodeResult(st, 1)));
    tr := t2 + [Wrote(A, NodeResult(st, 1))];
  }

  lemma {:induction false} LegalEmpty(nodes: Plan)
    ensures Legal(nodes, [])
  {
  }

  /** A resumed run of `b` alone: its dependency never succeeds, so it never starts. */
  lemma {:induction false} RunB() returns (tr: Trace)
    ensures Legal([B], tr) && forall k, d :: Apply(k, d, tr) == d.(status := Success)
  {
    ChainWaves();
    var nodes := [B];
    assert nodes[0] == B && CHAIN[1] == B && "a" in B.deps;
    FewerEdges(nodes, CHAIN);
    assert Wave(nodes, 0) == {};
    var t1: Trace := [TaskSet(Running)];
    Extend(nodes, [], TaskSet(Running));
    assert [] + t1 == t1;
    Extend(nodes, t1, TaskSet(Success));
    tr := t1 + [TaskSet(Success)];
  }

  /** A crash after a failed write but before its dependents are skipped: the resumed run starts
      nothing and reports success, although one node has failed and the other never ran. */
  lemma {:induction false} ResumeAfterFailureReportsSuccess()
    ensures exists plan, ops, ds: seq<Disk> ::
      UniqueIds(plan) && Closed(plan) && Acyclic(plan) && History(plan, true, ops, ds) && |ds| == 2
      && ds[1].status == Success && ds[1].rows.Keys == {"a", "b"}
      && ds[1].rows["a"].result.status == Failed && ds[1].rows["b"].result.status == Pending
  {
    hide Acyclic, Closed, Wave, Done, Legal, Fold, Apply, History, Skeleton;
    ChainWaves();
    var before := RunA(CHAIN, Failed);
    assert CHAIN[..2] == CHAIN;
    var d := Disk(Running, map["a" := Row(A, NodeResult(Failed, 1)), "b" := Row(B, UNRUN)]);
    assert d == Apply(true, Disk(Pending, Skeleton(CHAIN)), before);
    assert Submitted(CHAIN, true, 2, before, d);
    var nodes := [B];
    assert Unsatisfied(["a"], d.rows) == ["a"] + Unsatisfied(["a"][1..], d.rows) == ["a"];
    assert nodes[0] == B && ToRun(d, nodes);
    var tr := RunB();
    var d' := d.(status := Success);
    OneOp(CHAIN, 2, before, d, Resume(nodes, tr), d');
    assert [d, d'][1] == d';
  }

  /** A crash between the last node write and the task write: no resume can ever apply, so the task
      stays running until a startup scan gives it up. */
  lemma {:induction false} FinishedNodesStayRunning()
    ensures exists plan, tr, d ::
      Submitted(plan, true, |plan|, tr, d) && UniqueIds(plan) && Closed(plan) && Acyclic(plan)
      && AllSuccessful(d.rows) && d.status == Running
      && forall op, d' :: OpStep(true, d, op, d') ==> op == GiveUp
  {
    var plan := [A];
    SingleWaves();
    var tr := RunA(plan, Success);
    assert plan[..1] == plan;
    hide Acyclic, Closed, UniqueIds, Wave, Done, Legal, Fold, Apply, Skeleton;
    var d := Apply(true, Disk(Pending, Skeleton(plan)), tr);
    assert d == Disk(Running, map["a" := Row(A, NodeResult(Success, 1))]) by {
      assert Skeleton(plan) == map["a" := Row(A, UNRUN)];
    }
    assert Submitted(plan, true, |plan|, tr, d);
    NothingToResume(d);
  }

  /** A running task without an unfinished row: only giving up is left. */
  lemma {:induction false} NothingToResume(d: Disk)
    requires d.status == Running && forall id :: id in d.rows ==> !Unfinished(d.rows[id])
    ensures forall op, d' :: OpStep(true, d, op, d') ==> op == GiveUp
  {
    assert forall nodes :: ToRun(d, nodes) && nodes != [] ==> nodes[0] in nodes;
  }

  /** A crash while the rows are being inserted: the resumed task succeeds without the nodes that had
      no row yet. */
  lemma {:induction false} LostRowsGoUnnoticed()
    ensures exists plan, ops, ds: seq<Disk> ::
      UniqueIds(plan) && Closed(plan) && Acyclic(plan) && History(plan, true, ops, ds) && |ds| == 2
      && ds[1].status == Success && AllSuccessful(ds[1].rows) && ds[1].rows.Keys != Ids(plan)
  {
    hide Acyclic, Closed, Wave, Done, Legal, Apply, History, Skeleton;
    ChainWaves();
    SingleWaves();
    var nodes := [A];
    assert CHAIN[..1] == nodes;
    var d := Disk(Pending, Skeleton(nodes));
    EmptyTrace(d);
    assert Submitted(CHAIN, true, 1, [], d);
    assert nodes[0] == A && Unsatisfied([], d.rows) == [] && ToRun(d, nodes);
    var tr := RunA(nodes, Success);
    assert MayEnd(nodes, Fold(tr), Success) by {
      var one: nat := 1;
      assert Fold(tr).written.Keys == Done(nodes, one);
    }
    Extend(nodes, tr, TaskSet(Success));
    var d' := Disk(Success, map["a" := Row(A, NodeResult(Success, 1))]);
    OneOp(CHAIN, 1, [], d, Resume(nodes, tr + [TaskSet(Success)]), d');
    assert [d, d'][1] == d' && "b" in Ids(CHAIN) && "b" !in d'.rows;
  }

  lemma {:induction false} EmptyTrace(d: Disk)
    ensures Legal(CHAIN, []) && Apply(true, d, []) == d
  {
  }
}
