/** The events of a run and of the step ledger in the order in which they happen. */
module Joint {
  import opened Graph
  import opened Sessions
  import opened Store
  import Ledger

  datatype JEvent = Task(task: Event) | Step(step: Ledger.Event)

  type JTrace = seq<JEvent>

  /** The events of the run alone. */
  ghost function Tasks(j: JTrace): Trace {
    if j == [] then []
    else if j[|j| - 1].Task? then Tasks(j[..|j| - 1]) + [j[|j| - 1].task]
    else Tasks(j[..|j| - 1])
  }

  /** The events of the ledger alone. */
  ghost function Steps(j: JTrace): Ledger.Trace {
    if j == [] then []
    else if j[|j| - 1].Step? then Steps(j[..|j| - 1]) + [j[|j| - 1].step]
    else Steps(j[..|j| - 1])
  }

  /** Everything that stands for a success of `n`: all of its ledgered steps are recorded done, and at some
      moment an attempt had just carried out all of its steps, in order and without a failure. */
  ghost predicate Backs(l: Ledger.Trace, n: TaskNode) {
    Ledger.AllRecorded(n, Ledger.Fold(l).done) && Ledger.Completed(l, n)
  }

  /** At the moment a result is written, the ledger backs a success, and the attempts that the result counts
      are the latest that were made at the node. */
  ghost predicate Covered(e: JEvent, l: Ledger.Trace) {
    e.Task? && e.task.Wrote? ==>
      var n, r := e.task.node, e.task.result;
      && (r.status == Success ==> Backs(l, n))
      && (r.attempts > 0 ==> Ledger.Performed(l, n, r.attempts, r.status == Success))
  }

  ghost predicate Backed(l: Ledger.Trace, j: JTrace) {
    j == [] || (Backed(l, j[..|j| - 1]) && Covered(j[|j| - 1], l + Steps(j[..|j| - 1])))
  }

  /** A run of `nodes` on a ledger that has seen `l`. */
  ghost predicate JLegal(nodes: Plan, l: Ledger.Trace, j: JTrace) {
    Legal(nodes, Tasks(j)) && Ledger.Legal(l + Steps(j)) && Backed(l, j)
  }

  lemma {:induction false} NothingYet(l: Ledger.Trace)
    ensures Tasks([]) == [] && l + Steps([]) == l && Backed(l, [])
  {
  }

  lemma {:induction false} TaskAppended(l: Ledger.Trace, j: JTrace, e: Event)
    requires Backed(l, j) && Covered(Task(e), l + Steps(j))
    ensures Tasks(j + [Task(e)]) == Tasks(j) + [e] && Steps(j + [Task(e)]) == Steps(j) && Backed(l, j + [Task(e)])
  {
    var longer := j + [Task(e)];
    assert longer[..|longer| - 1] == j;
  }

  ghost function AsSteps(l: Ledger.Trace): JTrace {
    seq(|l|, i requires 0 <= i < |l| => Step(l[i]))
  }

  lemma {:induction false} StepAppended(l: Ledger.Trace, j: JTrace, e: Ledger.Event)
    requires Backed(l, j)
    ensures Tasks(j + [Step(e)]) == Tasks(j) && Steps(j + [Step(e)]) == Steps(j) + [e] && Backed(l, j + [Step(e)])
  {
    var longer := j + [Step(e)];
    assert longer[..|longer| - 1] == j;
  }

  lemma {:induction false} StepsAppended(l: Ledger.Trace, j: JTrace, more: Ledger.Trace)
    requires Backed(l, j)
    ensures Tasks(j + AsSteps(more)) == Tasks(j) && Steps(j + AsSteps(more)) == Steps(j) + more
    ensures Backed(l, j + AsSteps(more))
    decreases |more|
  {
    hide Backed, Tasks, Steps;
    if more == [] {
      assert j + AsSteps(more) == j && Steps(j) + more == Steps(j);
    } else {
      var init, e := more[..|more| - 1], more[|more| - 1];
      StepsAppended(l, j, init);
      StepAppended(l, j + AsSteps(init), e);
      assert j + AsSteps(more) == j + AsSteps(init) + [Step(e)];
      assert Steps(j) + more == Steps(j) + init + [e];
    }
  }

  /** A crash may cut off a run after any event of either kind. */
  lemma {:induction false} JLegalPrefix(nodes: Plan, l: Ledger.Trace, j: JTrace, n: nat)
    requires JLegal(nodes, l, j) && n <= |j|
    ensures JLegal(nodes, l, j[..n])
    decreases |j|
  {
    if n == |j| {
      assert j[..n] == j;
    } else {
      var init := j[..|j| - 1];
      assert init[..n] == j[..n];
      OneEventLess(nodes, l, j);
      JLegalPrefix(nodes, l, init, n);
    }
  }

  lemma {:induction false} OneEventLess(nodes: Plan, l: Ledger.Trace, j: JTrace)
    requires JLegal(nodes, l, j) && j != []
    ensures JLegal(nodes, l, j[..|j| - 1])
  {
    var tasks, steps := Tasks(j), l + Steps(j);
    if j[|j| - 1].Task? {
      assert tasks[..|tasks| - 1] == Tasks(j[..|j| - 1]);
    } else {
      assert steps[..|steps| - 1] == l + Steps(j[..|j| - 1]);
    }
  }

  // ----- What it means for the rows -----

  /** The ledger backs every node that is recorded successful. */
  ghost predicate RowsBacked(rows: map<NodeId, Row>, l: Ledger.Trace) {
    forall id :: Succeeded(rows, id) ==> Backs(l, rows[id].node)
  }

  /** The rows hold the nodes that are run, but for their dependencies. */
  ghost predicate SameWork(nodes: Plan, rows: map<NodeId, Row>) {
    forall n :: n in nodes ==> n.id in rows && rows[n.id].node.id == n.id && rows[n.id].node.steps == n.steps
  }

  lemma {:induction false} StillBacks(l: Ledger.Trace, rest: Ledger.Trace, n: TaskNode, m: TaskNode)
    requires Backs(l, n) && m.id == n.id && m.steps == n.steps
    ensures Backs(l + rest, m)
  {
    hide Ledger.Fold, Ledger.Completed;
    Ledger.DoneGrows(l, rest);
    Ledger.CompletedStays(l, rest, n, m);
    forall i | 0 <= i < |m.steps| && Ledger.Ledgered(m.steps[i])
      ensures Ledger.KeyOf(m, i) in Ledger.Fold(l + rest).done
    {
      assert Ledger.KeyOf(m, i) == Ledger.KeyOf(n, i);
    }
  }

  lemma {:induction false} RowsStayBacked(rows: map<NodeId, Row>, l: Ledger.Trace, rest: Ledger.Trace)
    requires RowsBacked(rows, l)
    ensures RowsBacked(rows, l + rest)
  {
    hide Backs;
    forall id | Succeeded(rows, id) ensures Backs(l + rest, rows[id].node) {
      StillBacks(l, rest, rows[id].node, rows[id].node);
    }
  }

  lemma {:induction false} WriteKeepsBacked(
      keepsDeps: bool, nodes: Plan, rows: map<NodeId, Row>, n: TaskNode, r: NodeResult, l: Ledger.Trace)
    requires RowsBacked(rows, l) && SameWork(nodes, rows) && n in nodes && UniqueIds(nodes)
    requires r.status == Success ==> Backs(l, n)
    ensures RowsBacked(Upsert(keepsDeps, rows, n, r), l) && SameWork(nodes, Upsert(keepsDeps, rows, n, r))
  {
    hide Backs;
    if r.status == Success {
      StillBacks(l, [], n, rows[n.id].node);
      assert l + [] == l;
    }
  }

  /** A run keeps every success on disk backed, at every moment. */
  lemma {:induction false} RunKeepsBacked(keepsDeps: bool, nodes: Plan, d: Disk, l: Ledger.Trace, j: JTrace)
    requires UniqueIds(nodes) && JLegal(nodes, l, j)
    requires RowsBacked(d.rows, l) && SameWork(nodes, d.rows)
    ensures var d' := Apply(keepsDeps, d, Tasks(j)); RowsBacked(d'.rows, l + Steps(j)) && SameWork(nodes, d'.rows)
    decreases |j|
  {
    hide Backs, Ledger.Legal, RowsBacked, SameWork, Ledger.Performed;
    if j == [] {
      assert l + Steps(j) == l;
    } else {
      var init, e := j[..|j| - 1], j[|j| - 1];
      OneEventLess(nodes, l, j);
      RunKeepsBacked(keepsDeps, nodes, d, l, init);
      var before := Apply(keepsDeps, d, Tasks(init));
      if e.Task? {
        assert Tasks(j)[..|Tasks(j)| - 1] == Tasks(init);
        if e.task.Wrote? {
          assert e.task.node in nodes;
          WriteKeepsBacked(keepsDeps, nodes, before.rows, e.task.node, e.task.result, l + Steps(init));
        }
      } else {
        RowsStayBacked(before.rows, l + Steps(init), [e.step]);
        assert l + Steps(j) == l + Steps(init) + [e.step];
      }
    }
  }

  lemma {:induction false} SkeletonIsBacked(nodes: Plan, l: Ledger.Trace)
    requires UniqueIds(nodes)
    ensures RowsBacked(Skeleton(nodes), l) && SameWork(nodes, Skeleton(nodes))
  {
    hide Backs;
    SkeletonRows(nodes);
    var rows := Skeleton(nodes);
    forall id ensures !Succeeded(rows, id) {
      if id in rows {
        var n :| n in nodes && n.id == id;
      }
    }
  }

  lemma {:induction false} OneNodeIsSameWork(n: TaskNode, rows: map<NodeId, Row>)
    requires n.id in rows && rows[n.id].node == n
    ensures SameWork([n], rows) && UniqueIds([n])
  {
  }

  lemma {:induction false} ResumeIsSameWork(d: Disk, nodes: Plan)
    requires Keyed(d.rows) && ToRun(d, nodes)
    ensures SameWork(nodes, d.rows) && UniqueIds(nodes)
  {
  }
}
