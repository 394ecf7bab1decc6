/** When does one node of a plan come last? In one run that is a matter of levels; over crashes and
    resumes it is a matter of what the node depends on, because resume drops satisfied edges and so
    moves nodes to earlier waves. */
module LastNode {
  import opened Graph
  import opened Waves
  import opened Sessions
  import opened Store
  import opened Runs

  /** `x` is a dependency of `z`, directly or through others. */
  ghost predicate DependsOn(plan: Plan, z: NodeId, x: NodeId) {
    exists w :: Walk(plan, w) && |w| > 1 && w[0] == z && w[|w| - 1] == x
  }

  ghost predicate Have(rows: map<NodeId, Row>, must: set<NodeId>) {
    forall id :: id in must ==> Succeeded(rows, id)
  }

  // ----- Runs without a failure -----

  /** The run goes well; `started` has been taken up and `written` recorded successful. */
  ghost predicate GoesWell(nodes: Plan, tr: Trace, started: set<NodeId>, written: set<NodeId>) {
    && Legal(nodes, tr) && Fold(tr).status == Running && !Fold(tr).canceled && AllSucceeded(Fold(tr))
    && Fold(tr).started.Keys == started && Fold(tr).written.Keys == written
    && forall id :: id in started ==> Fold(tr).started[id]
  }

  const ONCE := NodeResult(Success, 1)

  lemma {:induction false} Begins(nodes: Plan)
    ensures GoesWell(nodes, [TaskSet(Running)], {}, {})
    ensures forall k, d :: Apply(k, d, [TaskSet(Running)]) == d.(status := Running)
  {
    assert Legal(nodes, []) && Fold([]) == FRESH && forall k, d :: Apply(k, d, []) == d;
    Extend(nodes, [], TaskSet(Running));
    assert [] + [TaskSet(Running)] == [TaskSet(Running)];
  }

  lemma {:induction false} TakesUp(nodes: Plan, k: nat, tr: Trace, started: set<NodeId>, id: NodeId)
    requires Acyclic(nodes) && id in Wave(nodes, k) && id !in started && GoesWell(nodes, tr, started, Done(nodes, k))
    ensures GoesWell(nodes, tr + [Started(k, id, true)], started + {id}, Done(nodes, k))
  {
    hide Done, Wave, Acyclic, Legal, Fold;
    Extend(nodes, tr, Started(k, id, true));
  }

  lemma {:induction false} TakesUpAll(nodes: Plan, k: nat, tr: Trace, rest: set<NodeId>) returns (tr': Trace)
    requires Acyclic(nodes) && rest <= Wave(nodes, k)
    requires GoesWell(nodes, tr, Done(nodes, k + 1) - rest, Done(nodes, k))
    ensures GoesWell(nodes, tr', Done(nodes, k + 1), Done(nodes, k))
    decreases rest
  {
    hide Done, Wave, Acyclic, GoesWell;
    if rest == {} {
      tr' := tr;
      assert Done(nodes, k + 1) - rest == Done(nodes, k + 1);
    } else {
      var id :| id in rest;
      InItsWave(nodes, id, k);
      TakesUp(nodes, k, tr, Done(nodes, k + 1) - rest, id);
      assert Done(nodes, k + 1) - rest + {id} == Done(nodes, k + 1) - (rest - {id});
      tr' := TakesUpAll(nodes, k, tr + [Started(k, id, true)], rest - {id});
    }
  }

  lemma {:induction false} Records(nodes: Plan, k: nat, tr: Trace, written: set<NodeId>, n: TaskNode)
    requires Acyclic(nodes) && n in nodes && n.id in Wave(nodes, k) && n.id !in written
    requires GoesWell(nodes, tr, Done(nodes, k + 1), written)
    ensures GoesWell(nodes, tr + [Wrote(n, ONCE)], Done(nodes, k + 1), written + {n.id})
  {
    InItsWave(nodes, n.id, k);
    hide Done, Wave, Acyclic, Legal, Fold;
    Extend(nodes, tr, Wrote(n, ONCE));
  }

  lemma {:induction false} RecordsAll(nodes: Plan, k: nat, tr: Trace, rest: set<NodeId>) returns (tr': Trace)
    requires Acyclic(nodes) && rest <= Wave(nodes, k)
    requires GoesWell(nodes, tr, Done(nodes, k + 1), Done(nodes, k + 1) - rest)
    ensures GoesWell(nodes, tr', Done(nodes, k + 1), Done(nodes, k + 1))
    decreases rest
  {
    if rest == {} {
      tr' := tr;
    } else {
      var id :| id in rest;
      var n :| n in nodes && n.id == id;
      InItsWave(nodes, id, k);
      hide Done, Wave, Acyclic, GoesWell;
      Records(nodes, k, tr, Done(nodes, k + 1) - rest, n);
      assert Done(nodes, k + 1) - rest + {id} == Done(nodes, k + 1) - (rest - {id});
      tr' := RecordsAll(nodes, k, tr + [Wrote(n, ONCE)], rest - {id});
    }
  }

  lemma {:induction false} WholeWave(nodes: Plan, k: nat)
    ensures Done(nodes, k + 1) - Wave(nodes, k) == Done(nodes, k)
  {
  }

  /** A run that is about to take up wave `k`. */
  lemma {:induction false} RunUpTo(nodes: Plan, k: nat) returns (tr: Trace)
    requires Acyclic(nodes)
    ensures GoesWell(nodes, tr, Done(nodes, k), Done(nodes, k))
  {
    hide Done, Wave, Acyclic, GoesWell;
    if k == 0 {
      Begins(nodes);
      DoneNext(nodes, 0);
      tr := [TaskSet(Running)];
    } else {
      tr := RunUpTo(nodes, k - 1);
      WholeWave(nodes, k - 1);
      tr := TakesUpAll(nodes, k - 1, tr, Wave(nodes, k - 1));
      tr := RecordsAll(nodes, k - 1, tr, Wave(nodes, k - 1));
    }
  }

  /** A run that has recorded one node of the first wave. */
  lemma {:induction false} RunOne(nodes: Plan, n: TaskNode) returns (tr: Trace)
    requires UniqueIds(nodes) && Acyclic(nodes) && n in nodes && forall x :: x !in n.deps
    ensures GoesWell(nodes, tr, Done(nodes, 1), {n.id})
  {
    var none: nat := 0;
    NextWave(nodes, n, none);
    DoneNext(nodes, none);
    hide Done, Wave, Acyclic, GoesWell, UniqueIds;
    tr := RunUpTo(nodes, none);
    WholeWave(nodes, none);
    tr := TakesUpAll(nodes, none, tr, Wave(nodes, none));
    assert Done(nodes, none) == {};
    Records(nodes, none, tr, {}, n);
    tr := tr + [Wrote(n, ONCE)];
  }

  // ----- One resumed run -----

  /** Whenever a run of `nodes` on the snapshot `d` takes up `z`, all of `must` is recorded successful. */
  ghost predicate ComesLastIn(keepsDeps: bool, d: Disk, nodes: Plan, z: NodeId, must: set<NodeId>) {
    forall tr: Trace, i: nat :: Legal(nodes, tr) && i < |tr| && tr[i].Started? && tr[i].id == z ==>
      Have(Apply(keepsDeps, d, tr[..i]).rows, must)
  }

  /** Whatever has no recorded success lies in an earlier wave than `z`. */
  ghost predicate InEarlierWaves(rows: map<NodeId, Row>, nodes: Plan, z: NodeId, must: set<NodeId>) {
    forall k: nat, id :: z in Wave(nodes, k) && id in must ==> Succeeded(rows, id) || id in Done(nodes, k)
  }

  lemma {:induction false} RowsOfGoodRun(
      keepsDeps: bool, d: Disk, nodes: Plan, tr: Trace, started: set<NodeId>, written: set<NodeId>, id: NodeId)
    requires GoesWell(nodes, tr, started, written) && Ids(nodes) <= d.rows.Keys
    ensures Succeeded(Apply(keepsDeps, d, tr).rows, id) <==> Succeeded(d.rows, id) || id in written
    ensures Apply(keepsDeps, d, tr).rows.Keys == d.rows.Keys
    ensures id in d.rows && id !in written ==> Apply(keepsDeps, d, tr).rows[id] == d.rows[id]
  {
    hide Legal, Fold, Apply;
    RunTouches(keepsDeps, nodes, d, tr);
  }

  lemma {:induction false} RowsAtStart(
      keepsDeps: bool, d: Disk, nodes: Plan, tr: Trace, i: nat, z: NodeId, id: NodeId)
    requires Legal(nodes, tr) && i < |tr| && tr[i].Started? && tr[i].id == z && Ids(nodes) <= d.rows.Keys
    ensures z in Wave(nodes, tr[i].wave)
    ensures Succeeded(d.rows, id) || id in Done(nodes, tr[i].wave) ==>
      Succeeded(Apply(keepsDeps, d, tr[..i]).rows, id)
  {
    hide Done, Wave, Acyclic, Apply;
    LegalPrefix(nodes, tr, i);
    RunTouches(keepsDeps, nodes, d, tr[..i]);
    assert AllSucceeded(Fold(tr[..i]));
  }

  lemma {:induction false} EarlyStart(keepsDeps: bool, d: Disk, nodes: Plan, k: nat, z: NodeId) returns (tr: Trace)
    requires Acyclic(nodes) && z in Wave(nodes, k) && Ids(nodes) <= d.rows.Keys
    ensures Legal(nodes, tr + [Started(k, z, true)])
    ensures forall id :: Succeeded(Apply(keepsDeps, d, tr).rows, id) <==> Succeeded(d.rows, id) || id in Done(nodes, k)
  {
    hide Done, Wave, Acyclic, Legal, Fold, Apply;
    tr := RunUpTo(nodes, k);
    InItsWave(nodes, z, k);
    forall id
      ensures Succeeded(Apply(keepsDeps, d, tr).rows, id) <==> Succeeded(d.rows, id) || id in Done(nodes, k)
    {
      RowsOfGoodRun(keepsDeps, d, nodes, tr, Done(nodes, k), Done(nodes, k), id);
    }
    TakesUp(nodes, k, tr, Done(nodes, k), z);
  }

  /** Exactly when `z` comes last in every run on a snapshot, in any completion order. */
  lemma {:induction false} ComesLastInRunIff(keepsDeps: bool, d: Disk, nodes: Plan, z: NodeId, must: set<NodeId>)
    requires Acyclic(nodes) && Ids(nodes) <= d.rows.Keys
    ensures ComesLastIn(keepsDeps, d, nodes, z, must) <==> InEarlierWaves(d.rows, nodes, z, must)
  {
    hide Done, Wave, Acyclic, Legal, Fold, Apply;
    if InEarlierWaves(d.rows, nodes, z, must) {
      forall tr: Trace, i: nat | Legal(nodes, tr) && i < |tr| && tr[i].Started? && tr[i].id == z
        ensures Have(Apply(keepsDeps, d, tr[..i]).rows, must)
      {
        forall id | id in must ensures Succeeded(Apply(keepsDeps, d, tr[..i]).rows, id) {
          RowsAtStart(keepsDeps, d, nodes, tr, i, z, id);
        }
      }
    }
    if ComesLastIn(keepsDeps, d, nodes, z, must) {
      forall k: nat, id | z in Wave(nodes, k) && id in must ensures Succeeded(d.rows, id) || id in Done(nodes, k) {
        var tr := EarlyStart(keepsDeps, d, nodes, k, z);
        var longer := tr + [Started(k, z, true)];
        assert longer[..|tr|] == tr && longer[|tr|] == Started(k, z, true);
      }
    }
  }

  // ----- The condition on the snapshot alone -----

  /** Everything that must come before `z` is one of its dependencies or waits for no more than one of
      them does. */
  ghost predicate Twinned(plan: Plan, z: NodeId, must: set<NodeId>) {
    forall m :: m in plan && m.id in must ==>
      || DependsOn(plan, z, m.id)
      || exists b :: b in plan && DependsOn(plan, z, b.id) && forall x :: x in m.deps ==> x in b.deps
  }

  ghost predicate Waiting(rows: map<NodeId, Row>, id: NodeId) {
    id in rows && Unfinished(rows[id])
  }

  /** No run on these rows takes up `z`: it has run, or something it depends on failed, was skipped or
      has lost its row. */
  ghost predicate NotToCome(plan: Plan, rows: map<NodeId, Row>, z: NodeId) {
    !Waiting(rows, z) || exists a :: DependsOn(plan, z, a) && !Succeeded(rows, a) && !Waiting(rows, a)
  }

  /** Every other node is successful, or waiting while `z` has a dependency that is not successful. */
  ghost predicate SafeToClose(plan: Plan, rows: map<NodeId, Row>, z: NodeId, must: set<NodeId>) {
    || NotToCome(plan, rows, z)
    || forall id :: id in must ==>
         Succeeded(rows, id) || (Waiting(rows, id) && exists x :: x in DepsOf(plan, z) && !Succeeded(rows, x))
  }

  lemma {:induction false} DependsFurther(plan: Plan, z: NodeId, x: NodeId, y: NodeId)
    requires (x == z || DependsOn(plan, z, x)) && y in DepsOf(plan, x)
    ensures DependsOn(plan, z, y)
  {
    var w := [z];
    if x != z {
      w :| Walk(plan, w) && |w| > 1 && w[0] == z && w[|w| - 1] == x;
    }
    var v := w + [y];
    assert Walk(plan, v) && v[0] == z && v[|v| - 1] == y;
  }

  /** What the node that a resume runs still waits for. */
  lemma {:induction false} StillWaitsFor(plan: Plan, d: Disk, nodes: Plan, n: TaskNode, x: NodeId) returns (m: TaskNode)
    requires UniqueIds(plan) && Sound(plan, d.rows) && ToRun(d, nodes) && n in plan && n.id in Ids(nodes)
    ensures m in nodes && m.id == n.id
    ensures x in m.deps <==> x in n.deps && !Succeeded(d.rows, x)
  {
    hide UniqueIds;
    m :| m in nodes && m.id == n.id;
    assert Fits(n, d.rows[n.id].node, d.rows);
    UnsatisfiedMembers(d.rows[n.id].node.deps, d.rows);
  }

  lemma {:induction false} PlanNode(plan: Plan, x: NodeId, y: NodeId) returns (n: TaskNode)
    requires UniqueIds(plan) && y in DepsOf(plan, x)
    ensures n in plan && n.id == x && y in n.deps
  {
    if x !in Ids(plan) {
      DepsOfUnknown(plan, x);
    }
    n :| n in plan && n.id == x;
    DepsOfMember(plan, n);
  }

  lemma {:induction false} BelowIsInside(plan: Plan, z: NodeId, x: NodeId)
    requires UniqueIds(plan) && Closed(plan) && DependsOn(plan, z, x)
    ensures x in Ids(plan)
  {
    var w :| Walk(plan, w) && |w| > 1 && w[0] == z && w[|w| - 1] == x;
    var i := |w| - 2;
    assert w[i + 1] in DepsOf(plan, w[i]);
    var n := PlanNode(plan, w[i], x);
  }

  /** When the resumed run takes up `x`, its dependencies are successful already or done in earlier waves. */
  lemma {:induction false} DepReached(plan: Plan, d: Disk, nodes: Plan, k: nat, x: NodeId, y: NodeId)
    requires UniqueIds(plan) && Sound(plan, d.rows) && ToRun(d, nodes) && y in DepsOf(plan, x)
    requires Succeeded(d.rows, x) || x in Done(nodes, k + 1)
    ensures Succeeded(d.rows, y) || y in Done(nodes, k)
  {
    var n := PlanNode(plan, x, y);
    if !Succeeded(d.rows, x) {
      hide Done, Wave, Sound;
      DoneMonotone(nodes, k + 1, k + 1);
      var j := DoneSplits(nodes, x, k + 1);
      var m := StillWaitsFor(plan, d, nodes, n, y);
      NextWave(nodes, m, j);
      DoneMonotone(nodes, j, k);
    }
  }

  lemma {:induction false} WalkReached(plan: Plan, d: Disk, nodes: Plan, k: nat, w: seq<NodeId>)
    requires UniqueIds(plan) && Sound(plan, d.rows) && ToRun(d, nodes) && Walk(plan, w) && |w| > 1
    requires Succeeded(d.rows, w[0]) || w[0] in Done(nodes, k + 1)
    ensures Succeeded(d.rows, w[|w| - 1]) || w[|w| - 1] in Done(nodes, k)
    decreases |w|
  {
    hide Done, Wave, Sound, ToRun, UniqueIds;
    assert w[1] in DepsOf(plan, w[0]);
    DepReached(plan, d, nodes, k, w[0], w[1]);
    if |w| > 2 {
      DoneMonotone(nodes, k, k + 1);
      WalkReached(plan, d, nodes, k, w[1..]);
    }
  }

  lemma {:induction false} Reached(plan: Plan, d: Disk, nodes: Plan, k: nat, z: NodeId, x: NodeId)
    requires UniqueIds(plan) && Sound(plan, d.rows) && ToRun(d, nodes) && DependsOn(plan, z, x) && z in Wave(nodes, k)
    ensures Succeeded(d.rows, x) || x in Done(nodes, k)
  {
    InItsWave(nodes, z, k);
    hide Done, Wave, Sound, ToRun, UniqueIds;
    var w :| Walk(plan, w) && |w| > 1 && w[0] == z && w[|w| - 1] == x;
    WalkReached(plan, d, nodes, k, w);
  }

  lemma {:induction false} RunsWaiting(d: Disk, nodes: Plan, id: NodeId)
    requires ToRun(d, nodes)
    ensures id in Ids(nodes) <==> Waiting(d.rows, id)
  {
    hide UniqueIds;
    if id in Ids(nodes) {
      var n :| n in nodes && n.id == id;
    }
  }

  /** Unless it is not to come, `z` has its wave in the resumed run. */
  lemma {:induction false} Comes(plan: Plan, d: Disk, nodes: Plan, z: NodeId) returns (k: nat)
    requires UniqueIds(plan) && Acyclic(plan) && Sound(plan, d.rows) && ToRun(d, nodes) && !NotToCome(plan, d.rows, z)
    ensures z in Wave(nodes, k)
  {
    hide Done, Wave, Sound, UniqueIds, Acyclic, ToRun, DependsOn, Ids;
    assert UniqueIds(nodes) by {
      ToRunIsUnique(d, nodes);
    }
    ResumedPlanIsAcyclic(plan, d, nodes);
    ghost var part := set x | x in Ids(nodes) && (x == z || DependsOn(plan, z, x));
    RunsWaiting(d, nodes, z);
    forall m, x | m in nodes && m.id in part && x in m.deps ensures x in part {
      StaysInPart(plan, d, nodes, z, m, x);
    }
    k := HasWave(nodes, part, z);
  }

  lemma {:induction false} ToRunIsUnique(d: Disk, nodes: Plan)
    requires ToRun(d, nodes)
    ensures UniqueIds(nodes)
  {
  }

  lemma {:induction false} StaysInPart(plan: Plan, d: Disk, nodes: Plan, z: NodeId, m: TaskNode, x: NodeId)
    requires UniqueIds(plan) && Sound(plan, d.rows) && ToRun(d, nodes) && !NotToCome(plan, d.rows, z)
    requires m in nodes && (m.id == z || DependsOn(plan, z, m.id)) && x in m.deps
    ensures x in Ids(nodes) && DependsOn(plan, z, x)
  {
    hide UniqueIds, DependsOn;
    assert m.id in Ids(plan);
    var n :| n in plan && n.id == m.id;
    var m' := StillWaitsFor(plan, d, nodes, n, x);
    SameNode(nodes, m, m');
    DepsOfMember(plan, n);
    DependsFurther(plan, z, m.id, x);
    RunsWaiting(d, nodes, x);
  }

  lemma {:induction false} NextInLine(plan: Plan, d: Disk, nodes: Plan, n: TaskNode, j: nat)
    requires UniqueIds(plan) && Sound(plan, d.rows) && ToRun(d, nodes) && n in plan && Waiting(d.rows, n.id)
    requires forall x :: x in n.deps ==> Succeeded(d.rows, x) || x in Done(nodes, j)
    ensures n.id in Done(nodes, j + 1)
  {
    hide Done, Wave, Sound, UniqueIds;
    RunsWaiting(d, nodes, n.id);
    var m :| m in nodes && m.id == n.id;
    forall x | x in m.deps ensures x in Done(nodes, j) {
      var m' := StillWaitsFor(plan, d, nodes, n, x);
      SameNode(nodes, m, m');
    }
    NextWave(nodes, m, j);
  }

  /** A twin that is waiting is done before `z` if anything that `z` waits for is. */
  lemma {:induction false} TwinIsDone(plan: Plan, d: Disk, nodes: Plan, k: nat, z: NodeId, n: TaskNode, b: TaskNode)
    requires UniqueIds(plan) && Sound(plan, d.rows) && ToRun(d, nodes) && z in Wave(nodes, k) && k > 0
    requires n in plan && b in plan && DependsOn(plan, z, b.id) && forall x :: x in n.deps ==> x in b.deps
    requires Waiting(d.rows, n.id)
    ensures n.id in Done(nodes, k)
  {
    hide Done, Wave, DependsOn, Sound, ToRun, UniqueIds;
    Reached(plan, d, nodes, k, z, b.id);
    var j: nat := 0;
    if !Succeeded(d.rows, b.id) {
      j := DoneSplits(nodes, b.id, k);
    }
    forall x | x in n.deps ensures Succeeded(d.rows, x) || x in Done(nodes, j) {
      if !Succeeded(d.rows, x) {
        TwinWaits(plan, d, nodes, j, b, x);
      }
    }
    NextInLine(plan, d, nodes, n, j);
    DoneMonotone(nodes, j + 1, k);
  }

  lemma {:induction false} TwinWaits(plan: Plan, d: Disk, nodes: Plan, j: nat, b: TaskNode, x: NodeId)
    requires UniqueIds(plan) && Sound(plan, d.rows) && ToRun(d, nodes) && b in plan && x in b.deps
    requires !Succeeded(d.rows, x) && (Succeeded(d.rows, b.id) || b.id in Wave(nodes, j))
    ensures x in Done(nodes, j)
  {
    DepsOfMember(plan, b);
    if b.id in Wave(nodes, j) {
      InItsWave(nodes, b.id, j);
    }
    DepReached(plan, d, nodes, j, b.id, x);
  }

  lemma {:induction false} SafeMeansEarlier(
      plan: Plan, d: Disk, nodes: Plan, z: NodeId, must: set<NodeId>, k: nat, id: NodeId)
    requires UniqueIds(plan) && Sound(plan, d.rows) && ToRun(d, nodes) && must <= Ids(plan) && Twinned(plan, z, must)
    requires SafeToClose(plan, d.rows, z, must) && z in Wave(nodes, k) && id in must
    ensures Succeeded(d.rows, id) || id in Done(nodes, k)
  {
    hide Done, Wave, DependsOn, Sound, ToRun, UniqueIds;
    InItsWave(nodes, z, k);
    DoneMonotone(nodes, k + 1, k + 1);
    RunsWaiting(d, nodes, z);
    forall a | DependsOn(plan, z, a) ensures Succeeded(d.rows, a) || Waiting(d.rows, a) {
      Reached(plan, d, nodes, k, z, a);
      DoneMonotone(nodes, k, k);
      RunsWaiting(d, nodes, a);
    }
    if !Succeeded(d.rows, id) {
      var x :| x in DepsOf(plan, z) && !Succeeded(d.rows, x);
      DepReached(plan, d, nodes, k, z, x);
      DoneNext(nodes, 0);
      var n :| n in plan && n.id == id;
      if DependsOn(plan, z, id) {
        Reached(plan, d, nodes, k, z, id);
      } else {
        var b :| b in plan && DependsOn(plan, z, b.id) && forall x :: x in n.deps ==> x in b.deps;
        TwinIsDone(plan, d, nodes, k, z, n, b);
      }
    }
  }

  lemma {:induction false} FirstInLine(plan: Plan, d: Disk, nodes: Plan, z: NodeId)
    requires UniqueIds(plan) && Sound(plan, d.rows) && ToRun(d, nodes) && Waiting(d.rows, z)
    requires forall x :: x in DepsOf(plan, z) ==> Succeeded(d.rows, x)
    ensures z in Wave(nodes, 0)
  {
    assert z in Ids(plan);
    var n :| n in plan && n.id == z;
    DepsOfMember(plan, n);
    NextInLine(plan, d, nodes, n, 0);
    DoneNext(nodes, 0);
    DoneNext(nodes, 1);
  }

  lemma {:induction false} UnsafeMeansLater(plan: Plan, d: Disk, nodes: Plan, z: NodeId, must: set<NodeId>)
    requires UniqueIds(plan) && Acyclic(plan) && Sound(plan, d.rows) && ToRun(d, nodes)
    requires !SafeToClose(plan, d.rows, z, must)
    ensures !InEarlierWaves(d.rows, nodes, z, must)
  {
    var k := Comes(plan, d, nodes, z);
    hide Done, Wave, DependsOn, Sound, ToRun, UniqueIds, Acyclic, NotToCome;
    assert Waiting(d.rows, z) by {
      ComesWaiting(plan, d.rows, z);
    }
    var id :| id in must && !Succeeded(d.rows, id)
      && (!Waiting(d.rows, id) || forall x :: x in DepsOf(plan, z) ==> Succeeded(d.rows, x));
    if Waiting(d.rows, id) {
      FirstInLine(plan, d, nodes, z);
      k := 0;
      DoneNext(nodes, k);
    } else {
      RunsWaiting(d, nodes, id);
      DoneMonotone(nodes, k, k);
    }
    assert z in Wave(nodes, k) && id !in Done(nodes, k);
  }

  lemma {:induction false} ComesWaiting(plan: Plan, rows: map<NodeId, Row>, z: NodeId)
    requires !NotToCome(plan, rows, z)
    ensures Waiting(rows, z)
  {
  }

  /** Exactly when `z` comes last in every run that resumes a snapshot. The condition can be read off the
      rows before resuming: nothing else may have failed, been skipped or lost its row, and if something
      else is still waiting, so must be something that `z` directly depends on. */
  lemma {:induction false} SafeToCloseIff(
      plan: Plan, keepsDeps: bool, d: Disk, nodes: Plan, z: NodeId, must: set<NodeId>)
    requires UniqueIds(plan) && Acyclic(plan) && Sound(plan, d.rows) && ToRun(d, nodes)
    requires must <= Ids(plan) && Twinned(plan, z, must)
    ensures ComesLastIn(keepsDeps, d, nodes, z, must) <==> SafeToClose(plan, d.rows, z, must)
  {
    assert Ids(nodes) <= d.rows.Keys;
    ResumedPlanIsAcyclic(plan, d, nodes);
    hide Done, Wave, Acyclic, Sound, ToRun, UniqueIds, ComesLastIn, SafeToClose, Twinned;
    ComesLastInRunIff(keepsDeps, d, nodes, z, must);
    if SafeToClose(plan, d.rows, z, must) {
      forall k: nat, id | z in Wave(nodes, k) && id in must ensures Succeeded(d.rows, id) || id in Done(nodes, k) {
        SafeMeansEarlier(plan, d, nodes, z, must, k, id);
      }
    } else {
      UnsafeMeansLater(plan, d, nodes, z, must);
    }
  }

  // ----- Over all histories -----

  /** Some history of the task has led to `d`. */
  ghost predicate Reachable(plan: Plan, keepsDeps: bool, d: Disk) {
    exists ops, ds: seq<Disk> :: History(plan, keepsDeps, ops, ds) && ds[|ds| - 1] == d
  }

  ghost predicate RunTakesUp(keepsDeps: bool, d0: Disk, z: NodeId, d: Disk) {
    exists nodes, tr, k, live ::
      && d0.status in {Pending, Running} && ToRun(d0, nodes) && Legal(nodes, tr + [Started(k, z, live)])
      && d == Apply(keepsDeps, d0, tr)
  }

  ghost predicate RerunTakesUp(d0: Disk, z: NodeId, d: Disk) {
    z in d0.rows && MayRerun(d0, d0.rows[z].node) && d == d0.(status := Running)
  }

  /** In some history `z` is taken up while the disk is `d`, by a run or by a manual rerun. */
  ghost predicate TakenUpAt(plan: Plan, keepsDeps: bool, z: NodeId, d: Disk) {
    exists d0 :: Reachable(plan, keepsDeps, d0) && (RunTakesUp(keepsDeps, d0, z, d) || RerunTakesUp(d0, z, d))
  }

  lemma {:induction false} ReachableIsSound(plan: Plan, keepsDeps: bool, d: Disk)
    requires UniqueIds(plan) && Reachable(plan, keepsDeps, d)
    ensures Sound(plan, d.rows)
  {
    var ops, ds: seq<Disk> :| History(plan, keepsDeps, ops, ds) && ds[|ds| - 1] == d;
    SuccessStaysClosed(plan, keepsDeps, ops, ds, |ds| - 1);
  }

  lemma {:induction false} ReachOn(plan: Plan, keepsDeps: bool, d: Disk, op: Op, d': Disk)
    requires Reachable(plan, keepsDeps, d) && OpStep(keepsDeps, d, op, d')
    ensures Reachable(plan, keepsDeps, d')
  {
    hide OpStep, Submitted;
    var ops, ds: seq<Disk> :| History(plan, keepsDeps, ops, ds) && ds[|ds| - 1] == d;
    var ops', ds' := ops + [op], ds + [d'];
    forall i, j | 0 <= i && j == i + 1 && j < |ds'| ensures OpStep(keepsDeps, ds'[i], ops'[i], ds'[j]) {
      if j < |ds| {
        assert OpStep(keepsDeps, ds[i], ops[i], ds[j]);
      }
    }
    assert ds'[0] == ds[0] && ds'[|ds'| - 1] == d';
    assert History(plan, keepsDeps, ops', ds');
  }

  lemma {:induction false} NothingSatisfied(deps: seq<NodeId>, rows: map<NodeId, Row>)
    requires forall x :: x in deps ==> !Succeeded(rows, x)
    ensures Unsatisfied(deps, rows) == deps
  {
    if deps != [] {
      NothingSatisfied(deps[1..], rows);
    }
  }

  /** The first run of a task is a run on the fresh rows. */
  lemma {:induction false} FirstRun(plan: Plan, keepsDeps: bool)
    requires UniqueIds(plan)
    ensures var d := Disk(Pending, Skeleton(plan));
      ToRun(d, plan) && Reachable(plan, keepsDeps, d) && d.rows.Keys == Ids(plan)
      && forall id :: id in d.rows ==> d.rows[id].result == UNRUN
  {
    var d := Disk(Pending, Skeleton(plan));
    SkeletonRows(plan);
    forall id | id in d.rows ensures d.rows[id].result == UNRUN {
      var n :| n in plan && n.id == id;
    }
    forall n | n in plan ensures n == Pruned(d.rows[n.id], d.rows) {
      NothingSatisfied(n.deps, d.rows);
    }
    assert plan[..|plan|] == plan;
    assert Legal(plan, []) && d == Apply(keepsDeps, d, []);
    hide Skeleton, ToRun, UniqueIds;
    var ds := [d];
    assert Submitted(plan, keepsDeps, |plan|, [], ds[0]);
    assert History(plan, keepsDeps, [], ds) && ds[|ds| - 1] == d;
  }

  // What a node depends on is there when it is taken up.

  lemma {:induction false} WalkSucceeds(plan: Plan, rows: map<NodeId, Row>, w: seq<NodeId>)
    requires UniqueIds(plan) && Sound(plan, rows) && Walk(plan, w) && |w| > 1
    requires forall x :: x in DepsOf(plan, w[0]) ==> Succeeded(rows, x)
    ensures Succeeded(rows, w[|w| - 1])
    decreases |w|
  {
    hide UniqueIds, Sound;
    assert w[1] in DepsOf(plan, w[0]);
    if |w| > 2 {
      forall x | x in DepsOf(plan, w[1]) ensures Succeeded(rows, x) {
        DependencySucceeded(plan, rows, w[1], x);
      }
      WalkSucceeds(plan, rows, w[1..]);
    }
  }

  lemma {:induction false} DependencySucceeded(plan: Plan, rows: map<NodeId, Row>, x: NodeId, y: NodeId)
    requires UniqueIds(plan) && Sound(plan, rows) && Succeeded(rows, x) && y in DepsOf(plan, x)
    ensures Succeeded(rows, y)
  {
    var n := PlanNode(plan, x, y);
  }

  lemma {:induction false} AllBelowSucceed(plan: Plan, rows: map<NodeId, Row>, n: TaskNode, x: NodeId)
    requires UniqueIds(plan) && Sound(plan, rows) && n in plan && DependsOn(plan, n.id, x)
    requires forall dep :: dep in n.deps ==> Succeeded(rows, dep)
    ensures Succeeded(rows, x)
  {
    hide UniqueIds, Sound;
    DepsOfMember(plan, n);
    var w :| Walk(plan, w) && |w| > 1 && w[0] == n.id && w[|w| - 1] == x;
    WalkSucceeds(plan, rows, w);
  }

  lemma {:induction false} DependenciesComeFirst(
      plan: Plan, keepsDeps: bool, n: TaskNode, d: Disk, x: NodeId)
    requires UniqueIds(plan) && n in plan && TakenUpAt(plan, keepsDeps, n.id, d) && DependsOn(plan, n.id, x)
    ensures Succeeded(d.rows, x)
  {
    hide UniqueIds, Sound, Reachable, DependsOn, Apply, ToRun;
    var d0 :| Reachable(plan, keepsDeps, d0) && (RunTakesUp(keepsDeps, d0, n.id, d) || RerunTakesUp(d0, n.id, d));
    ReachableIsSound(plan, keepsDeps, d0);
    if RerunTakesUp(d0, n.id, d) {
      RerunStartsAreSafe(plan, d0, n);
    } else {
      var nodes, tr, k, live :| ToRun(d0, nodes) && Legal(nodes, tr + [Started(k, n.id, live)])
        && d == Apply(keepsDeps, d0, tr);
      StartedOnDependencies(plan, keepsDeps, d0, nodes, tr, k, live, n);
    }
    AllBelowSucceed(plan, d.rows, n, x);
  }

  lemma {:induction false} StartedOnDependencies(
      plan: Plan, keepsDeps: bool, d0: Disk, nodes: Plan, tr: Trace, k: nat, live: bool, n: TaskNode)
    requires UniqueIds(plan) && Sound(plan, d0.rows) && ToRun(d0, nodes) && n in plan
    requires Legal(nodes, tr + [Started(k, n.id, live)])
    ensures var d := Apply(keepsDeps, d0, tr);
      Sound(plan, d.rows) && forall dep :: dep in n.deps ==> Succeeded(d.rows, dep)
  {
    hide UniqueIds, Sound, Apply, ToRun, Legal;
    var longer := tr + [Started(k, n.id, live)];
    assert longer[..|tr|] == tr && longer[|tr|] == Started(k, n.id, live);
    LegalPrefix(nodes, longer, |tr|);
    ToRunIsRunnable(plan, d0, nodes);
    RunKeepsSound(plan, keepsDeps, d0, nodes, tr);
    ResumeStartsAreSafe(plan, keepsDeps, d0, nodes, longer, |tr|, n);
  }

  // What it does not depend on can be starved by crashes.

  /** A snapshot that crashes alone can leave: a row for every node, none of them failed or skipped. */
  ghost predicate Crashed(plan: Plan, d: Disk) {
    && Sound(plan, d.rows) && d.rows.Keys == Ids(plan) && NothingFailedOrSkipped(d.rows)
    && d.status in {Pending, Running}
  }

  ghost function Successes(rows: map<NodeId, Row>): set<NodeId> {
    set id | id in rows && Succeeded(rows, id)
  }

  lemma {:induction false} ListRows(d: Disk, ids: set<NodeId>) returns (nodes: Plan)
    requires Keyed(d.rows) && forall id :: id in ids ==> Waiting(d.rows, id)
    ensures UniqueIds(nodes) && Ids(nodes) == ids
    ensures forall n :: n in nodes ==> n.id in d.rows && n == Pruned(d.rows[n.id], d.rows)
    decreases ids
  {
    if ids == {} {
      nodes := [];
    } else {
      var id :| id in ids;
      var rest := ListRows(d, ids - {id});
      var n := Pruned(d.rows[id], d.rows);
      nodes := rest + [n];
      PushedIds(rest, n);
    }
  }

  lemma {:induction false} ToRunExists(d: Disk) returns (nodes: Plan)
    requires Keyed(d.rows)
    ensures ToRun(d, nodes)
  {
    var waiting := set id | id in d.rows && Unfinished(d.rows[id]);
    nodes := ListRows(d, waiting);
    forall n | n in nodes ensures Unfinished(d.rows[n.id]) {
      assert n.id in waiting;
    }
  }

  lemma {:induction false} StaysRunnable(keepsDeps: bool, d: Disk, tr: Trace)
    ensures Apply(keepsDeps, d, tr).status in {d.status, Fold(tr).status}
  {
    if tr != [] {
      StaysRunnable(keepsDeps, d, tr[..|tr| - 1]);
    }
  }

  /** Only `id` has been recorded successful in between. */
  ghost predicate OneMore(rows: map<NodeId, Row>, id: NodeId, rows': map<NodeId, Row>) {
    && id in rows && rows'.Keys == rows.Keys && Succeeded(rows', id)
    && forall x :: x in rows && x != id ==> rows'[x] == rows[x]
  }

  lemma {:induction false} StaysCrashed(plan: Plan, d: Disk, id: NodeId, d': Disk)
    requires Crashed(plan, d) && OneMore(d.rows, id, d'.rows) && Sound(plan, d'.rows) && d'.status in {Pending, Running}
    ensures Crashed(plan, d') && Successes(d'.rows) == Successes(d.rows) + {id}
  {
    hide Sound;
    forall x | x in d'.rows ensures d'.rows[x].result.status !in {Failed, Skipped} {
      if x != id {
        assert d'.rows[x] == d.rows[x];
      }
    }
  }

  lemma {:induction false} OnlyOneMore(keepsDeps: bool, d: Disk, nodes: Plan, n: TaskNode, tr: Trace)
    requires GoesWell(nodes, tr, Done(nodes, 1), {n.id}) && Ids(nodes) <= d.rows.Keys && n.id in d.rows
    ensures OneMore(d.rows, n.id, Apply(keepsDeps, d, tr).rows)
  {
    hide Done, GoesWell, Apply;
    var d' := Apply(keepsDeps, d, tr);
    forall x
      ensures d'.rows.Keys == d.rows.Keys && (x == n.id ==> Succeeded(d'.rows, x))
      ensures x in d.rows && x != n.id ==> d'.rows[x] == d.rows[x]
    {
      RowsOfGoodRun(keepsDeps, d, nodes, tr, Done(nodes, 1), {n.id}, x);
    }
    assert d'.rows.Keys == d.rows.Keys;
  }

  lemma {:induction false} IsResume(keepsDeps: bool, d: Disk, nodes: Plan, n: TaskNode, tr: Trace)
    requires d.status in {Pending, Running} && ToRun(d, nodes) && n in nodes
    requires GoesWell(nodes, tr, Done(nodes, 1), {n.id})
    ensures OpStep(keepsDeps, d, Resume(nodes, tr), Apply(keepsDeps, d, tr))
    ensures Apply(keepsDeps, d, tr).status in {Pending, Running}
  {
    hide Done, ToRun, Legal, Fold, Apply;
    StaysRunnable(keepsDeps, d, tr);
  }

  /** A resumed run that is cut off when it has recorded just one node. */
  lemma {:induction false} RecordOne(plan: Plan, keepsDeps: bool, d: Disk, nodes: Plan, n: TaskNode)
    returns (d': Disk)
    requires UniqueIds(plan) && Acyclic(plan) && Reachable(plan, keepsDeps, d) && Crashed(plan, d)
    requires ToRun(d, nodes) && n in nodes && forall x :: x !in n.deps
    ensures Reachable(plan, keepsDeps, d') && Crashed(plan, d') && OneMore(d.rows, n.id, d'.rows)
    ensures Successes(d'.rows) == Successes(d.rows) + {n.id}
  {
    assert UniqueIds(nodes) && Ids(nodes) <= d.rows.Keys && n.id in d.rows;
    ResumedPlanIsAcyclic(plan, d, nodes);
    hide Done, Wave, Acyclic, UniqueIds, Sound, Apply, ToRun, Reachable, GoesWell, OneMore, OpStep;
    var tr := RunOne(nodes, n);
    d' := Apply(keepsDeps, d, tr);
    IsResume(keepsDeps, d, nodes, n, tr);
    ReachOn(plan, keepsDeps, d, Resume(nodes, tr), d');
    ReachableIsSound(plan, keepsDeps, d');
    OnlyOneMore(keepsDeps, d, nodes, n, tr);
    StaysCrashed(plan, d, n.id, d');
  }

  /** A part of the plan that holds all dependencies of its nodes. In every clean snapshot something of
      it can be taken up at once. */
  lemma {:induction false} SomeReady(plan: Plan, d: Disk, nodes: Plan, part: set<NodeId>) returns (n: TaskNode)
    requires UniqueIds(plan) && Acyclic(plan) && Crashed(plan, d) && ToRun(d, nodes)
    requires ClosedPart(plan, part) && !(part <= Successes(d.rows))
    ensures n in nodes && n.id in part && n.id !in Successes(d.rows) && forall x :: x !in n.deps
  {
    ToRunIsUnique(d, nodes);
    ResumedPlanIsAcyclic(plan, d, nodes);
    hide Done, Wave, Acyclic, UniqueIds, Sound, ToRun;
    var rest := part - Successes(d.rows);
    forall id | id in rest ensures id in Ids(nodes) {
      RunsWaiting(d, nodes, id);
    }
    forall m, x | m in nodes && m.id in rest && x in m.deps ensures x in rest {
      assert m.id in Ids(plan);
      var k :| k in plan && k.id == m.id;
      var m' := StillWaitsFor(plan, d, nodes, k, x);
      SameNode(nodes, m, m');
    }
    var none: nat := 0;
    DoneNext(nodes, none);
    var id := PartProgress(nodes, rest, none);
    assert id in Ids(nodes);
    n :| n in nodes && n.id == id;
    NextWave(nodes, n, none);
  }

  /** Crashes can stop the work at any part of the plan that holds all dependencies of its nodes. */
  lemma {:induction false} Starve(plan: Plan, keepsDeps: bool, d: Disk, part: set<NodeId>) returns (d': Disk)
    requires UniqueIds(plan) && Acyclic(plan) && Reachable(plan, keepsDeps, d) && Crashed(plan, d)
    requires ClosedPart(plan, part) && Successes(d.rows) <= part
    ensures Reachable(plan, keepsDeps, d') && Crashed(plan, d') && Successes(d'.rows) == part
    decreases part - Successes(d.rows)
  {
    if part <= Successes(d.rows) {
      d' := d;
    } else {
      hide Acyclic, UniqueIds, ToRun, Reachable, Crashed, ClosedPart, Successes, Sound;
      CrashedIsKeyed(plan, d);
      var nodes := ToRunExists(d);
      var n := SomeReady(plan, d, nodes, part);
      var next := RecordOne(plan, keepsDeps, d, nodes, n);
      Nearer(part, Successes(d.rows), n.id);
      d' := Starve(plan, keepsDeps, next, part);
    }
  }

  lemma {:induction false} CrashedIsKeyed(plan: Plan, d: Disk)
    requires Crashed(plan, d)
    ensures Keyed(d.rows)
  {
  }

  lemma {:induction false} Nearer(part: set<NodeId>, had: set<NodeId>, id: NodeId)
    requires had <= part && id in part && id !in had
    ensures had + {id} <= part && part - (had + {id}) < part - had
  {
    assert id in part - had;
  }

  lemma {:induction false} NotBelowItself(plan: Plan, z: NodeId)
    requires Acyclic(plan)
    ensures !DependsOn(plan, z, z)
  {
    if w :| Walk(plan, w) && |w| > 1 && w[0] == z && w[|w| - 1] == z {
      assert Repeats(w);
    }
  }

  lemma {:induction false} BelowIsClosedPart(plan: Plan, z: NodeId, part: set<NodeId>)
    requires UniqueIds(plan) && Closed(plan) && part == set x | x in Ids(plan) && DependsOn(plan, z, x)
    ensures ClosedPart(plan, part)
  {
    hide DependsOn;
    forall n, x | n in plan && n.id in part && x in n.deps ensures x in part {
      DepsOfMember(plan, n);
      DependsFurther(plan, z, n.id, x);
    }
  }

  lemma {:induction false} FreshIsCrashed(plan: Plan, keepsDeps: bool) returns (d: Disk)
    requires UniqueIds(plan)
    ensures Reachable(plan, keepsDeps, d) && Crashed(plan, d) && Successes(d.rows) == {}
  {
    FirstRun(plan, keepsDeps);
    d := Disk(Pending, Skeleton(plan));
    hide Sound, Reachable, UniqueIds, Skeleton, ToRun;
    ReachableIsSound(plan, keepsDeps, d);
  }

  lemma {:induction false} CrashedWaits(plan: Plan, d: Disk, id: NodeId)
    requires Crashed(plan, d) && id in Ids(plan)
    ensures Waiting(d.rows, id) <==> id !in Successes(d.rows)
  {
  }

  /** Crashes can leave a snapshot in which what `z` depends on is recorded successful, and nothing else. */
  lemma {:induction false} OnlyDependencies(plan: Plan, keepsDeps: bool, z: TaskNode) returns (d: Disk)
    requires UniqueIds(plan) && Closed(plan) && Acyclic(plan) && z in plan
    ensures Reachable(plan, keepsDeps, d) && Crashed(plan, d) && Waiting(d.rows, z.id)
    ensures forall x :: Succeeded(d.rows, x) <==> x in Ids(plan) && DependsOn(plan, z.id, x)
  {
    hide Closed, Acyclic, UniqueIds, Reachable, ClosedPart, DependsOn, Crashed, Waiting;
    var part := set x | x in Ids(plan) && DependsOn(plan, z.id, x);
    BelowIsClosedPart(plan, z.id, part);
    NotBelowItself(plan, z.id);
    var start := FreshIsCrashed(plan, keepsDeps);
    d := Starve(plan, keepsDeps, start, part);
    CrashedWaits(plan, d, z.id);
    forall x ensures Succeeded(d.rows, x) <==> x in part {
      assert x in Successes(d.rows) <==> x in part;
    }
  }

  /** Whatever else the plan contains, crashes can let `z` be taken up, and succeed, without it. */
  lemma {:induction false} CanComeEarly(
      plan: Plan, keepsDeps: bool, z: TaskNode, id: NodeId)
    returns (d: Disk, d': Disk)
    requires UniqueIds(plan) && Closed(plan) && Acyclic(plan) && z in plan && !DependsOn(plan, z.id, id) && id != z.id
    ensures TakenUpAt(plan, keepsDeps, z.id, d) && !Succeeded(d.rows, id)
    ensures Reachable(plan, keepsDeps, d') && Succeeded(d'.rows, z.id) && !Succeeded(d'.rows, id)
  {
    var d0 := OnlyDependencies(plan, keepsDeps, z);
    CrashedIsKeyed(plan, d0);
    var nodes := ToRunExists(d0);
    d := TakenUpEarly(plan, keepsDeps, d0, nodes, z);
    hide Closed, Acyclic, UniqueIds, Sound, Reachable, DependsOn, Crashed, OneMore, TakenUpAt;
    RunsWaiting(d0, nodes, z.id);
    var m := StillWaitsFor(plan, d0, nodes, z, "");
    forall x ensures x !in m.deps {
      WaitsForNothing(plan, d0, nodes, z, m, x);
    }
    d' := RecordOne(plan, keepsDeps, d0, nodes, m);
    assert forall x :: Succeeded(d'.rows, x) <==> x in Successes(d'.rows);
    assert forall x :: Succeeded(d0.rows, x) <==> x in Successes(d0.rows);
  }

  lemma {:induction false} WaitsForNothing(plan: Plan, d: Disk, nodes: Plan, z: TaskNode, m: TaskNode, x: NodeId)
    requires UniqueIds(plan) && Closed(plan) && Sound(plan, d.rows) && ToRun(d, nodes) && z in plan
    requires m in nodes && m.id == z.id
    requires forall y :: Succeeded(d.rows, y) <==> y in Ids(plan) && DependsOn(plan, z.id, y)
    ensures x !in m.deps
  {
    hide DependsOn;
    var m' := StillWaitsFor(plan, d, nodes, z, x);
    SameNode(nodes, m, m');
    if x in z.deps {
      DepsOfMember(plan, z);
      DependsFurther(plan, z.id, z.id, x);
    }
  }

  lemma {:induction false} TakenUpEarly(
      plan: Plan, keepsDeps: bool, d0: Disk, nodes: Plan, z: TaskNode)
    returns (d: Disk)
    requires UniqueIds(plan) && Closed(plan) && Acyclic(plan) && z in plan
    requires Reachable(plan, keepsDeps, d0) && Crashed(plan, d0) && Waiting(d0.rows, z.id) && ToRun(d0, nodes)
    requires forall x :: Succeeded(d0.rows, x) <==> x in Ids(plan) && DependsOn(plan, z.id, x)
    ensures TakenUpAt(plan, keepsDeps, z.id, d)
    ensures forall x :: Succeeded(d.rows, x) <==> Succeeded(d0.rows, x)
  {
    ResumedPlanIsAcyclic(plan, d0, nodes);
    assert Ids(nodes) <= d0.rows.Keys;
    forall x | x in DepsOf(plan, z.id) ensures Succeeded(d0.rows, x) {
      DepsOfMember(plan, z);
      DependsFurther(plan, z.id, z.id, x);
    }
    hide Closed, Acyclic, UniqueIds, Sound, Reachable, DependsOn, Apply, ToRun, Wave, Done, DepsOf, Legal;
    FirstInLine(plan, d0, nodes, z.id);
    var none: nat := 0;
    var tr := EarlyStart(keepsDeps, d0, nodes, none, z.id);
    DoneNext(nodes, none);
    d := Apply(keepsDeps, d0, tr);
    assert RunTakesUp(keepsDeps, d0, z.id, d);
  }

  /** Exactly when `z` comes last over every history, whatever crashes, resumes and reruns it consists of:
      `z` must depend on everything that is to come before it. Levels do not suffice. */
  lemma {:induction false} ComesLastIff(plan: Plan, keepsDeps: bool, z: TaskNode, must: set<NodeId>)
    requires UniqueIds(plan) && Closed(plan) && Acyclic(plan) && z in plan && z.id !in must
    ensures (forall d :: TakenUpAt(plan, keepsDeps, z.id, d) ==> Have(d.rows, must))
      <==> forall id :: id in must ==> DependsOn(plan, z.id, id)
  {
    hide Closed, Acyclic, UniqueIds, TakenUpAt, DependsOn;
    if forall id :: id in must ==> DependsOn(plan, z.id, id) {
      forall d | TakenUpAt(plan, keepsDeps, z.id, d) ensures Have(d.rows, must) {
        forall id | id in must ensures Succeeded(d.rows, id) {
          DependenciesComeFirst(plan, keepsDeps, z, d, id);
        }
      }
    } else {
      var id :| id in must && !DependsOn(plan, z.id, id);
      var d, _ := CanComeEarly(plan, keepsDeps, z, id);
      assert !Have(d.rows, must);
    }
  }
}
