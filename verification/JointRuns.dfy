/** Whole histories of a task together with the step ledger: submit, crash, resume, rerun and giving up
    in any order, with the ledger's events in between. */
module JointRuns {
  import opened Graph
  import opened Sessions
  import opened Store
  import opened Runs
  import opened Joint
  import Ledger

  /** The events of the run that an operation performs. */
  ghost function TasksOf(keepsDeps: bool, d: Disk, op: Op): Trace
    requires op.Rerun? ==> op.id in d.rows && op.cut <= 4
  {
    match op
    case Resume(_, tr) => tr
    case Rerun(id, r, cut) => RerunTrace(keepsDeps, d, d.rows[id].node, r)[..cut]
    case GiveUp => []
  }

  /** `j` happens between `d` and the next snapshot, `l'` is the ledger after it. The process may have
      been restarted before. */
  ghost predicate JStep(keepsDeps: bool, d: Disk, op: Op, d': Disk, l: Ledger.Trace, j: JTrace, l': Ledger.Trace) {
    && OpStep(keepsDeps, d, op, d') && Tasks(j) == TasksOf(keepsDeps, d, op)
    && (Along(l, j, l') || Along(l + [Ledger.Crash], j, l'))
  }

  /** The ledger goes from `l` to `l'` along `j`. */
  ghost predicate Along(l: Ledger.Trace, j: JTrace, l': Ledger.Trace) {
    l' == l + Steps(j) && Ledger.Legal(l') && Backed(l, j)
  }

  /** A submission leads to the disk `d`, at its end or cut off anywhere. */
  ghost predicate JSubmitted(plan: Plan, keepsDeps: bool, d: Disk, l: Ledger.Trace, j: JTrace, l': Ledger.Trace) {
    (exists n :: Submitted(plan, keepsDeps, n, Tasks(j), d)) && Along(l, j, l')
  }

  /** `ds` are the disks of a history, `ls` the ledgers, `js[i]` what led to the `i`-th of them. */
  ghost predicate JHistory(
      plan: Plan, keepsDeps: bool, ops: seq<Op>, ds: seq<Disk>, js: seq<JTrace>, ls: seq<Ledger.Trace>)
  {
    && |ds| == |js| == |ls| == |ops| + 1
    && (exists l :: JSubmitted(plan, keepsDeps, ds[0], l, js[0], ls[0]))
    && forall i, j :: 0 <= i && j == i + 1 && j < |ds| ==>
         JStep(keepsDeps, ds[i], ops[i], ds[j], ls[i], js[j], ls[j])
  }

  lemma {:induction false} IsHistory(
      plan: Plan, keepsDeps: bool, ops: seq<Op>, ds: seq<Disk>, js: seq<JTrace>, ls: seq<Ledger.Trace>)
    requires JHistory(plan, keepsDeps, ops, ds, js, ls)
    ensures History(plan, keepsDeps, ops, ds)
  {
    hide Submitted, OpStep;
    forall i, j | 0 <= i && j == i + 1 && j < |ds| ensures OpStep(keepsDeps, ds[i], ops[i], ds[j]) {
      assert JStep(keepsDeps, ds[i], ops[i], ds[j], ls[i], js[j], ls[j]);
    }
  }

  lemma {:induction false} Extended(
      plan: Plan, keepsDeps: bool, ops: seq<Op>, ds: seq<Disk>, js: seq<JTrace>, ls: seq<Ledger.Trace>,
      op: Op, d: Disk, j: JTrace, l: Ledger.Trace)
    requires JHistory(plan, keepsDeps, ops, ds, js, ls)
    requires JStep(keepsDeps, ds[|ds| - 1], op, d, ls[|ls| - 1], j, l)
    ensures JHistory(plan, keepsDeps, ops + [op], ds + [d], js + [j], ls + [l])
  {
    hide JStep, JSubmitted;
    var ops', ds', js', ls' := ops + [op], ds + [d], js + [j], ls + [l];
    var l0 :| JSubmitted(plan, keepsDeps, ds[0], l0, js[0], ls[0]);
    assert ds'[0] == ds[0] && js'[0] == js[0] && ls'[0] == ls[0];
    assert JSubmitted(plan, keepsDeps, ds'[0], l0, js'[0], ls'[0]);
    forall a, b | 0 <= a && b == a + 1 && b < |ds'|
      ensures JStep(keepsDeps, ds'[a], ops'[a], ds'[b], ls'[a], js'[b], ls'[b])
    {
      if b < |ds| {
        assert JStep(keepsDeps, ds[a], ops[a], ds[b], ls[a], js[b], ls[b]);
      }
    }
  }

  // ----- A crash inside an operation -----

  lemma {:induction false} AlongPrefix(l: Ledger.Trace, j: JTrace, n: nat)
    requires Along(l, j, l + Steps(j)) && n <= |j|
    ensures Along(l, j[..n], l + Steps(j[..n])) && Tasks(j[..n]) <= Tasks(j)
    decreases |j|
  {
    if n == |j| {
      assert j[..n] == j;
    } else {
      var init, steps := j[..|j| - 1], l + Steps(j);
      assert init[..n] == j[..n];
      if j[|j| - 1].Step? {
        assert steps[..|steps| - 1] == l + Steps(init);
      }
      AlongPrefix(l, init, n);
    }
  }

  /** A resumed run may be cut off after any event, of the run or of the ledger: that is a step, too. */
  lemma {:induction false} CutResumeIsStep(
      keepsDeps: bool, d: Disk, nodes: Plan, d': Disk, l: Ledger.Trace, j: JTrace, n: nat)
    requires JStep(keepsDeps, d, Resume(nodes, Tasks(j)), d', l, j, l + Steps(j)) && Along(l, j, l + Steps(j))
    requires n <= |j|
    ensures var tr := Tasks(j[..n]);
      JStep(keepsDeps, d, Resume(nodes, tr), Apply(keepsDeps, d, tr), l, j[..n], l + Steps(j[..n]))
  {
    hide ToRun, Apply, Legal, Along, Tasks, Steps;
    AlongPrefix(l, j, n);
    var whole, tr := Tasks(j), Tasks(j[..n]);
    assert whole[..|tr|] == tr;
    LegalPrefix(nodes, whole, |tr|);
  }

  /** The same for a manual rerun. */
  lemma {:induction false} CutRerunIsStep(
      keepsDeps: bool, d: Disk, id: NodeId, r: NodeResult, d': Disk, l: Ledger.Trace, j: JTrace, n: nat)
    requires JStep(keepsDeps, d, Rerun(id, r, 4), d', l, j, l + Steps(j)) && Along(l, j, l + Steps(j))
    requires n <= |j|
    ensures var tr := Tasks(j[..n]);
      |tr| <= 4 && JStep(keepsDeps, d, Rerun(id, r, |tr|), Apply(keepsDeps, d, tr), l, j[..n], l + Steps(j[..n]))
  {
    hide Apply, Along, Tasks, Steps;
    AlongPrefix(l, j, n);
    var whole, tr := RerunTrace(keepsDeps, d, d.rows[id].node, r), Tasks(j[..n]);
    assert whole[..4] == whole && whole[..|tr|] == tr;
  }

  /** And for the first run. */
  lemma {:induction false} CutSubmitIsSubmit(
      plan: Plan, keepsDeps: bool, l: Ledger.Trace, j: JTrace, d: Disk, n: nat)
    requires Submitted(plan, keepsDeps, |plan|, Tasks(j), d) && Along(l, j, l + Steps(j)) && n <= |j|
    ensures var d' := Apply(keepsDeps, Disk(Pending, Skeleton(plan)), Tasks(j[..n]));
      JSubmitted(plan, keepsDeps, d', l, j[..n], l + Steps(j[..n]))
  {
    hide Apply, Legal, Along, Tasks, Steps, Skeleton;
    AlongPrefix(l, j, n);
    var whole, tr := Tasks(j), Tasks(j[..n]);
    assert whole[..|tr|] == tr && plan[..|plan|] == plan;
    LegalPrefix(plan, whole, |tr|);
    assert Submitted(plan, keepsDeps, |plan|, tr, Apply(keepsDeps, Disk(Pending, Skeleton(plan)), tr));
  }

  /** The order in which a manual rerun does things. */
  ghost function RerunOrder(keepsDeps: bool, d: Disk, n: TaskNode, r: NodeResult, more: Ledger.Trace): JTrace {
    var ok := AllSuccessOrSkipped(Upsert(keepsDeps, d.rows, n, r));
    [Task(TaskSet(Running)), Task(Started(0, n.id, true))] + AsSteps(more)
    + [Task(Wrote(n, r))] + [Task(TaskSet(if ok then Success else Failed))]
  }

  lemma {:induction false} RerunInOrder(
      keepsDeps: bool, d: Disk, n: TaskNode, r: NodeResult, l: Ledger.Trace, more: Ledger.Trace)
    requires Ledger.Legal(l + more) && (r.status == Success ==> Backs(l + more, n))
    requires r.attempts > 0 ==> Ledger.Performed(l + more, n, r.attempts, r.status == Success)
    ensures var j := RerunOrder(keepsDeps, d, n, r, more);
      Tasks(j) == RerunTrace(keepsDeps, d, n, r) && Along(l, j, l + more)
  {
    hide Backs, Ledger.Performed, Ledger.Legal, Backed, Tasks, Steps;
    NothingYet(l);
    TaskAppended(l, [], TaskSet(Running));
    var j1 := [Task(TaskSet(Running))];
    assert [] + j1 == j1;
    TaskAppended(l, j1, Started(0, n.id, true));
    var j2 := j1 + [Task(Started(0, n.id, true))];
    StepsAppended(l, j2, more);
    var j3 := j2 + AsSteps(more);
    assert Steps(j3) == more;
    TaskAppended(l, j3, Wrote(n, r));
    var ok := AllSuccessOrSkipped(Upsert(keepsDeps, d.rows, n, r));
    TaskAppended(l, j3 + [Task(Wrote(n, r))], TaskSet(if ok then Success else Failed));
    assert RerunOrder(keepsDeps, d, n, r, more)
      == j3 + [Task(Wrote(n, r))] + [Task(TaskSet(if ok then Success else Failed))];
  }

  // ----- Each operation keeps the successes backed -----

  lemma {:induction false} WriteIsCovered(l: Ledger.Trace, j: JTrace, e: Event)
    requires Backed(l, j) && e in Tasks(j) && e.Wrote? && e.result.status == Success
    ensures Backs(l + Steps(j), e.node)
    decreases |j|
  {
    hide Backs, Ledger.Performed;
    var init, last := j[..|j| - 1], j[|j| - 1];
    if last != Task(e) {
      WriteIsCovered(l, init, e);
    }
    if last.Step? {
      StillBacks(l + Steps(init), [last.step], e.node, e.node);
      assert l + Steps(j) == l + Steps(init) + [last.step];
    }
  }

  lemma {:induction false} SubmitIsBacked(
      plan: Plan, keepsDeps: bool, n: nat, l: Ledger.Trace, j: JTrace, d: Disk)
    requires UniqueIds(plan) && Submitted(plan, keepsDeps, n, Tasks(j), d)
    requires Ledger.Legal(l + Steps(j)) && Backed(l, j)
    ensures RowsBacked(d.rows, l + Steps(j))
  {
    hide Ledger.Legal, RowsBacked, SameWork, Backed;
    var part := plan[..n];
    assert forall i :: 0 <= i < n ==> part[i] == plan[i];
    SkeletonIsBacked(part, l);
    if n < |plan| {
      RowsStayBacked(d.rows, l, Steps(j));
    } else {
      assert part == plan;
      RunKeepsBacked(keepsDeps, plan, Disk(Pending, Skeleton(part)), l, j);
    }
  }

  lemma {:induction false} ResumeKeepsBacked(
      keepsDeps: bool, d: Disk, nodes: Plan, l: Ledger.Trace, j: JTrace, l': Ledger.Trace)
    requires Keyed(d.rows) && ToRun(d, nodes) && Legal(nodes, Tasks(j)) && Along(l, j, l')
    requires RowsBacked(d.rows, l)
    ensures RowsBacked(Apply(keepsDeps, d, Tasks(j)).rows, l')
  {
    ResumeIsSameWork(d, nodes);
    hide Ledger.Fold, Ledger.Legal, RowsBacked, SameWork, Backed, ToRun, Legal;
    RunKeepsBacked(keepsDeps, nodes, d, l, j);
  }

  lemma {:induction false} RerunKeepsBacked(
      keepsDeps: bool, d: Disk, id: NodeId, r: NodeResult, cut: nat, l: Ledger.Trace, j: JTrace, l': Ledger.Trace)
    requires Keyed(d.rows) && id in d.rows && cut <= 4 && Along(l, j, l')
    requires Tasks(j) == RerunTrace(keepsDeps, d, d.rows[id].node, r)[..cut]
    requires RowsBacked(d.rows, l)
    ensures RowsBacked(Apply(keepsDeps, d, Tasks(j)).rows, l')
  {
    hide Ledger.Fold, Ledger.Legal, RowsBacked, SameWork, Backed, Apply, Tasks, Backs;
    var n := d.rows[id].node;
    RowsStayBacked(d.rows, l, Steps(j));
    RerunWrites(keepsDeps, d, n, r, cut);
    if cut > 2 {
      assert Tasks(j)[2] == Wrote(n, r);
      if r.status == Success {
        WriteIsCovered(l, j, Wrote(n, r));
      }
      OneNodeIsSameWork(n, d.rows);
      WriteKeepsBacked(keepsDeps, [n], d.rows, n, r, l + Steps(j));
    }
  }

  lemma {:induction false} GiveUpKeepsBacked(d: Disk, l: Ledger.Trace, j: JTrace, l': Ledger.Trace)
    requires Along(l, j, l') && RowsBacked(d.rows, l)
    ensures RowsBacked(GivenUp(d).rows, l')
  {
    hide Ledger.Legal, Backed, Backs;
    RowsStayBacked(d.rows, l, Steps(j));
    assert forall id :: Succeeded(GivenUp(d).rows, id) ==> Succeeded(d.rows, id);
  }

  lemma {:induction false} AlongKeepsBacked(
      keepsDeps: bool, d: Disk, op: Op, d': Disk, l: Ledger.Trace, j: JTrace, l': Ledger.Trace)
    requires Keyed(d.rows) && OpStep(keepsDeps, d, op, d') && Tasks(j) == TasksOf(keepsDeps, d, op)
    requires Along(l, j, l') && RowsBacked(d.rows, l)
    ensures RowsBacked(d'.rows, l')
  {
    hide Ledger.Fold, Along, RowsBacked, Keyed, RerunTrace, Apply, Tasks, GivenUp, ToRun, Legal;
    match op
    case Resume(nodes, _) => ResumeKeepsBacked(keepsDeps, d, nodes, l, j, l');
    case Rerun(id, r, cut) => RerunKeepsBacked(keepsDeps, d, id, r, cut, l, j, l');
    case GiveUp => GiveUpKeepsBacked(d, l, j, l');
  }

  lemma {:induction false} StepKeepsBacked(
      keepsDeps: bool, d: Disk, op: Op, d': Disk, l: Ledger.Trace, j: JTrace, l': Ledger.Trace)
    requires Keyed(d.rows) && JStep(keepsDeps, d, op, d', l, j, l') && RowsBacked(d.rows, l)
    ensures RowsBacked(d'.rows, l')
  {
    hide Along, OpStep, RowsBacked, Keyed, TasksOf;
    if Along(l, j, l') {
      AlongKeepsBacked(keepsDeps, d, op, d', l, j, l');
    } else {
      var crashed := l + [Ledger.Crash];
      RowsStayBacked(d.rows, l, [Ledger.Crash]);
      AlongKeepsBacked(keepsDeps, d, op, d', crashed, j, l');
    }
  }

  // ----- Over every history -----

  /** At every moment of every history, whatever crashes, resumes and reruns led to it, each node
      recorded successful has every one of its ledgered steps recorded done and has been run through. */
  lemma {:induction false} SuccessIsBacked(
      plan: Plan, keepsDeps: bool, ops: seq<Op>, ds: seq<Disk>, js: seq<JTrace>, ls: seq<Ledger.Trace>, i: nat)
    requires UniqueIds(plan) && JHistory(plan, keepsDeps, ops, ds, js, ls) && i < |ds|
    ensures Ledger.Legal(ls[i]) && RowsBacked(ds[i].rows, ls[i])
  {
    hide Submitted, Ledger.Fold, Ledger.Legal, Backed, RowsBacked, UniqueIds, Sound, OpStep;
    if i == 0 {
      var l :| JSubmitted(plan, keepsDeps, ds[0], l, js[0], ls[0]);
      var n :| Submitted(plan, keepsDeps, n, Tasks(js[0]), ds[0]);
      SubmitIsBacked(plan, keepsDeps, n, l, js[0], ds[0]);
    } else {
      var p := i - 1;
      SuccessIsBacked(plan, keepsDeps, ops, ds, js, ls, p);
      IsHistory(plan, keepsDeps, ops, ds, js, ls);
      SuccessStaysClosed(plan, keepsDeps, ops, ds, p);
      SoundIsKeyed(plan, ds[p].rows);
      assert JStep(keepsDeps, ds[p], ops[p], ds[i], ls[p], js[i], ls[i]);
      StepKeepsBacked(keepsDeps, ds[p], ops[p], ds[i], ls[p], js[i], ls[i]);
    }
  }

  /** So it has carried out every one of its steps, ledgered or not: at some moment an attempt had just gone
      through all of them, one after the other. */
  lemma {:induction false} SuccessDidEveryStep(
      plan: Plan, keepsDeps: bool, ops: seq<Op>, ds: seq<Disk>, js: seq<JTrace>, ls: seq<Ledger.Trace>,
      i: nat, id: NodeId)
    requires UniqueIds(plan) && JHistory(plan, keepsDeps, ops, ds, js, ls) && i < |ds| && Succeeded(ds[i].rows, id)
    ensures var n := ds[i].rows[id].node;
      Ledger.Completed(ls[i], n) && forall m :: 0 <= m < |n.steps| ==> Ledger.Did(Ledger.KeyOf(n, m), true) in ls[i]
  {
    assert i < |ls|;
    hide JHistory, UniqueIds, Ledger.Legal, Ledger.Completed;
    SuccessIsBacked(plan, keepsDeps, ops, ds, js, ls, i);
    var n := ds[i].rows[id].node;
    forall m | 0 <= m < |n.steps| ensures Ledger.Did(Ledger.KeyOf(n, m), true) in ls[i] {
      Ledger.CompletedDidAll(ls[i], n, m);
    }
  }

  lemma {:induction false} SoundIsKeyed(plan: Plan, rows: map<NodeId, Row>)
    requires Sound(plan, rows)
    ensures Keyed(rows)
  {
  }

  /** So the side effect of each of its ledgered steps has been carried out, at most once more often than
      there were setbacks, over the whole history. */
  lemma {:induction false} SuccessHadItsEffects(
      plan: Plan, keepsDeps: bool, ops: seq<Op>, ds: seq<Disk>, js: seq<JTrace>, ls: seq<Ledger.Trace>,
      i: nat, id: NodeId, m: nat)
    requires UniqueIds(plan) && JHistory(plan, keepsDeps, ops, ds, js, ls) && i < |ds| && Succeeded(ds[i].rows, id)
    requires m < |ds[i].rows[id].node.steps| && Ledger.Ledgered(ds[i].rows[id].node.steps[m])
    ensures var k := Ledger.KeyOf(ds[i].rows[id].node, m);
      1 <= Ledger.Effects(ls[i], k) <= Ledger.Setbacks(ls[i], k) + 1
  {
    assert i < |ls|;
    hide JHistory, UniqueIds, Ledger.Fold, Ledger.Legal, Ledger.Effects, Ledger.Setbacks;
    SuccessIsBacked(plan, keepsDeps, ops, ds, js, ls, i);
    Ledger.EffectAccounting(ls[i], Ledger.KeyOf(ds[i].rows[id].node, m));
  }

  lemma {:induction false} LedgerGrows(
      plan: Plan, keepsDeps: bool, ops: seq<Op>, ds: seq<Disk>, js: seq<JTrace>, ls: seq<Ledger.Trace>,
      i: nat, j: nat) returns (rest: Ledger.Trace)
    requires JHistory(plan, keepsDeps, ops, ds, js, ls) && i <= j < |ds|
    ensures ls[j] == ls[i] + rest
    decreases j
  {
    hide Submitted, Ledger.Legal, Backed, OpStep, Steps, Tasks;
    if i == j {
      rest := [];
    } else {
      var p := j - 1;
      rest := LedgerGrows(plan, keepsDeps, ops, ds, js, ls, i, p);
      assert JStep(keepsDeps, ds[p], ops[p], ds[j], ls[p], js[j], ls[j]);
      if Along(ls[p], js[j], ls[j]) {
        rest := rest + Steps(js[j]);
      } else {
        rest := rest + [Ledger.Crash] + Steps(js[j]);
      }
    }
  }

  /** And once the node is recorded successful, none of them is carried out again by any later operation,
      unless an attempt at it, in progress or given up, may still have had its effect. */
  lemma {:induction false} SuccessIsNotRepeated(
      plan: Plan, keepsDeps: bool, ops: seq<Op>, ds: seq<Disk>, js: seq<JTrace>, ls: seq<Ledger.Trace>,
      i: nat, j: nat, id: NodeId, m: nat)
    requires UniqueIds(plan) && JHistory(plan, keepsDeps, ops, ds, js, ls) && i <= j < |ds|
    requires Succeeded(ds[i].rows, id)
    requires m < |ds[i].rows[id].node.steps| && Ledger.Ledgered(ds[i].rows[id].node.steps[m])
    requires !Ledger.EffectAhead(Ledger.Fold(ls[i]), Ledger.KeyOf(ds[i].rows[id].node, m))
    ensures var k := Ledger.KeyOf(ds[i].rows[id].node, m); Ledger.Effects(ls[j], k) == Ledger.Effects(ls[i], k)
  {
    assert j < |ls|;
    hide JHistory, UniqueIds, Ledger.Fold, Ledger.Legal, Ledger.Effects, Ledger.EffectAhead;
    var k := Ledger.KeyOf(ds[i].rows[id].node, m);
    SuccessIsBacked(plan, keepsDeps, ops, ds, js, ls, i);
    SuccessIsBacked(plan, keepsDeps, ops, ds, js, ls, j);
    var rest := LedgerGrows(plan, keepsDeps, ops, ds, js, ls, i, j);
    Ledger.NoEffectFollows(ls[i], rest, k);
    NoMoreEffects(ls[i], rest, k);
  }

  lemma {:induction false} NoMoreEffects(tr: Ledger.Trace, rest: Ledger.Trace, k: Ledger.Key)
    requires Ledger.Effect(k) !in rest && Ledger.LateEffect(k) !in rest
    ensures Ledger.Effects(tr + rest, k) == Ledger.Effects(tr, k)
    decreases |rest|
  {
    if rest == [] {
      assert tr + rest == tr;
    } else {
      assert (tr + rest)[..|tr + rest| - 1] == tr + rest[..|rest| - 1];
      NoMoreEffects(tr, rest[..|rest| - 1], k);
    }
  }
}
