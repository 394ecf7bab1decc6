/** What one run of the scheduler over a plan may do, as a language of event traces. A trace records
    the writes to the task store and the node starts in the order in which they happen; every prefix
    of a legal trace is legal, so a crash is simply a prefix. `Allowed` fixes each step of the loop
    in src/dag.rs; the theorems below hold for every order in which a wave's nodes finish. */
module Sessions {
  import opened Graph
  import opened Waves

  datatype TaskStatus = Pending | Running | Success | Failed | Skipped

  datatype NodeResult = NodeResult(status: TaskStatus, attempts: nat)

  datatype Event =
    | TaskSet(status: TaskStatus)                     // the task row is written
    | Started(wave: nat, id: NodeId, live: bool)      // a node is taken up; not live: cancel was seen
    | Wrote(node: TaskNode, result: NodeResult)       // a node row is written
    | CancelSeen                                      // the cancel flag is observed

  type Trace = seq<Event>

  /** What a run has done so far. */
  datatype Session = Session(
    status: TaskStatus, started: map<NodeId, bool>, written: map<NodeId, NodeResult>, canceled: bool)

  const FRESH := Session(Pending, map[], map[], false)

  function After(s: Session, e: Event): Session {
    match e
    case TaskSet(st) => s.(status := st)
    case Started(_, id, live) => s.(started := s.started[id := live])
    case Wrote(n, r) => s.(written := s.written[n.id := r])
    case CancelSeen => s.(canceled := true)
  }

  function Fold(tr: Trace): Session {
    if tr == [] then FRESH else After(Fold(tr[..|tr| - 1]), tr[|tr| - 1])
  }

  ghost predicate AllSucceeded(s: Session) {
    forall id :: id in s.written ==> s.written[id].status == Success
  }

  ghost predicate SomeFailed(s: Session) {
    exists id :: id in s.written && s.written[id].status == Failed
  }

  /** A wave starts when exactly the waves before it are written, all of them successful. Once a
      cancel has been seen, nodes that are still taken up are not run. */
  ghost predicate MayStart(nodes: Plan, s: Session, k: nat, id: NodeId, live: bool) {
    && Acyclic(nodes) && id in Wave(nodes, k) && id !in s.started
    && s.written.Keys == Done(nodes, k) && AllSucceeded(s)
    && live == !s.canceled
  }

  /** A result is recorded after the node's whole wave has been taken up. */
  ghost predicate MayFinish(nodes: Plan, s: Session, n: TaskNode, r: NodeResult) {
    && n.id in s.started
    && (exists k: nat :: n.id in Wave(nodes, k) && s.started.Keys == Done(nodes, k + 1))
    && match r.status
       case Success => s.started[n.id] && 1 <= r.attempts <= n.retries + 1
       case Failed => r.attempts == if s.started[n.id] then n.retries + 1 else 0
       case _ => false
  }

  /** After a failure, and after everything taken up has been recorded, the rest is skipped. */
  ghost predicate MaySkip(s: Session, n: TaskNode, r: NodeResult) {
    r == NodeResult(Skipped, 0) && n.id !in s.started && s.started.Keys <= s.written.Keys && !AllSucceeded(s)
  }

  /** A cyclic plan is rejected: the reported root fails, the other nodes are skipped. */
  ghost predicate MayReject(nodes: Plan, n: TaskNode, r: NodeResult) {
    r == NodeResult(if FirstCyclic(nodes, n.id) then Failed else Skipped, 0)
  }

  ghost predicate MayEnd(nodes: Plan, s: Session, st: TaskStatus) {
    match st
    case Success =>
      Acyclic(nodes) && AllSucceeded(s) && !s.canceled
      && exists k: nat :: s.written.Keys == Done(nodes, k) && Wave(nodes, k) == {}
    case Failed =>
      || (s.written.Keys == Ids(nodes) && SomeFailed(s))
      || (s.canceled && AllSucceeded(s) && exists k: nat :: s.written.Keys == s.started.Keys == Done(nodes, k))
    case _ => false
  }

  ghost predicate Allowed(nodes: Plan, s: Session, e: Event) {
    match e
    case TaskSet(st) => if st == Running then s == FRESH else s.status == Running && MayEnd(nodes, s, st)
    case Started(k, id, live) => s.status == Running && MayStart(nodes, s, k, id, live)
    case Wrote(n, r) =>
      && s.status == Running && n in nodes && n.id !in s.written
      && if Acyclic(nodes) then MayFinish(nodes, s, n, r) || MaySkip(s, n, r) else MayReject(nodes, n, r)
    case CancelSeen => s.status == Running
  }

  ghost predicate Legal(nodes: Plan, tr: Trace) {
    tr == [] || (Legal(nodes, tr[..|tr| - 1]) && Allowed(nodes, Fold(tr[..|tr| - 1]), tr[|tr| - 1]))
  }

  lemma {:induction false} LegalPrefix(nodes: Plan, tr: Trace, n: nat)
    requires Legal(nodes, tr) && n <= |tr|
    ensures Legal(nodes, tr[..n])
    ensures n < |tr| ==> Allowed(nodes, Fold(tr[..n]), tr[n])
  {
    if n < |tr| {
      var init := tr[..|tr| - 1];
      assert init[..n] == tr[..n];
      LegalPrefix(nodes, init, n);
    } else {
      assert tr[..n] == tr;
    }
  }

  // ----- The shape of a run -----

  /** The nodes in `done` are successful and the run is working on `next - done`; if anything has
      been skipped, that wave is complete and has a failure. */
  ghost predicate Shape(s: Session, all: set<NodeId>, done: set<NodeId>, next: set<NodeId>) {
    && done <= s.started.Keys <= next
    && done <= s.written.Keys <= all
    && (forall id :: id in done ==> s.written[id].status == Success)
    && (forall id :: id in s.written && id in s.started ==> s.written[id].status in {Success, Failed})
    && (forall id :: id in s.written && id !in s.started ==> s.written[id].status == Skipped)
    && (s.written.Keys == done || s.started.Keys == next)
    && (s.written.Keys <= s.started.Keys
        || (next <= s.written.Keys && exists id :: id in next && id !in done && s.written[id].status == Failed))
  }

  /** The run is in wave `k`. */
  ghost predicate InWave(nodes: Plan, s: Session, k: nat) {
    Shape(s, Ids(nodes), Done(nodes, k), Done(nodes, k + 1))
  }

  lemma {:induction false} WaveOrder(nodes: Plan, id: NodeId, k: nat, j: nat)
    requires id in Wave(nodes, j)
    ensures j < k ==> id in Done(nodes, k)
    ensures id in Done(nodes, j + 1) && id !in Done(nodes, j)
    ensures k <= j ==> Done(nodes, k + 1) <= Done(nodes, j + 1)
    ensures k < j ==> Done(nodes, k + 1) <= Done(nodes, j)
  {
    hide Done, Wave, Ids;
    InItsWave(nodes, id, j);
    if j < k {
      DoneMonotone(nodes, j + 1, k);
    } else {
      DoneMonotone(nodes, k + 1, j + 1);
      if k < j {
        DoneMonotone(nodes, k + 1, j);
      }
    }
  }

  lemma {:induction false} StartKeepsShape(s: Session, all: set<NodeId>, done: set<NodeId>, next: set<NodeId>,
                        next': set<NodeId>, k: nat, id: NodeId, live: bool)
    requires Shape(s, all, done, next) && AllSucceeded(s) && next <= next' && id in next'
    ensures Shape(After(s, Started(k, id, live)), all, s.written.Keys, next')
  {
    var t := After(s, Started(k, id, live));
    assert t.started.Keys == s.started.Keys + {id};
  }

  lemma {:induction false} FinishKeepsShape(s: Session, all: set<NodeId>, done: set<NodeId>, next: set<NodeId>,
                         n: TaskNode, r: NodeResult)
    requires Shape(s, all, done, next) && s.started.Keys == next && n.id in next && n.id in all
    requires n.id !in s.written && r.status in {Success, Failed}
    ensures Shape(After(s, Wrote(n, r)), all, done, next)
  {
    var t := After(s, Wrote(n, r));
    assert t.written.Keys == s.written.Keys + {n.id};
  }

  lemma {:induction false} SkipKeepsShape(s: Session, all: set<NodeId>, done: set<NodeId>, next: set<NodeId>,
                       n: TaskNode, r: NodeResult)
    requires Shape(s, all, done, next) && n.id in all && n.id !in s.written && MaySkip(s, n, r)
    ensures Shape(After(s, Wrote(n, r)), all, done, next)
  {
    var t := After(s, Wrote(n, r));
    assert t.written.Keys == s.written.Keys + {n.id};
    if s.written.Keys <= s.started.Keys {
      var f :| f in s.written && s.written[f].status != Success;
      assert f in next && f !in done && t.written[f].status == Failed;
    } else {
      var f :| f in next && f !in done && s.written[f].status == Failed;
      assert t.written[f].status == Failed;
    }
  }

  lemma {:induction false} StepKeepsShape(nodes: Plan, s: Session, k: nat, e: Event) returns (k': nat)
    requires Acyclic(nodes) && InWave(nodes, s, k) && Allowed(nodes, s, e)
    ensures InWave(nodes, After(s, e), k')
  {
    k' := k;
    var all, done, next := Ids(nodes), Done(nodes, k), Done(nodes, k + 1);
    match e
    case TaskSet(_) =>
    case CancelSeen =>
    case Started(j, id, live) =>
      WaveOrder(nodes, id, k, j);
      StartKeepsShape(s, all, done, next, Done(nodes, j + 1), j, id, live);
      k' := j;
    case Wrote(n, r) =>
      if MayFinish(nodes, s, n, r) {
        var j: nat :| n.id in Wave(nodes, j) && s.started.Keys == Done(nodes, j + 1);
        WaveOrder(nodes, n.id, k, j);
        assert s.started.Keys == next;
        FinishKeepsShape(s, all, done, next, n, r);
      } else {
        SkipKeepsShape(s, all, done, next, n, r);
      }
  }

  lemma {:induction false} RunShape(nodes: Plan, tr: Trace) returns (k: nat)
    requires Acyclic(nodes) && Legal(nodes, tr)
    ensures InWave(nodes, Fold(tr), k)
  {
    if tr == [] {
      k := 0;
    } else {
      k := RunShape(nodes, tr[..|tr| - 1]);
      k := StepKeepsShape(nodes, Fold(tr[..|tr| - 1]), k, tr[|tr| - 1]);
    }
  }

  // ----- Safety of every prefix -----

  /** No node is taken up before all of its dependencies are recorded successful, and none after a
      failure has been recorded. */
  lemma {:induction false} StartsAfterDependencies(nodes: Plan, tr: Trace, i: nat, n: TaskNode)
    requires UniqueIds(nodes) && Legal(nodes, tr) && i < |tr| && n in nodes
    requires tr[i].Started? && tr[i].id == n.id
    ensures AllSucceeded(Fold(tr[..i]))
    ensures forall d :: d in n.deps ==> d in Fold(tr[..i]).written && Fold(tr[..i]).written[d].status == Success
  {
    LegalPrefix(nodes, tr, i);
    NextWave(nodes, n, tr[i].wave);
  }

  /** At every moment the successful nodes are closed under dependencies. */
  lemma {:induction false} SuccessIsClosed(nodes: Plan, tr: Trace, n: TaskNode)
    requires UniqueIds(nodes) && Legal(nodes, tr) && n in nodes
    requires n.id in Fold(tr).written && Fold(tr).written[n.id].status == Success
    ensures forall d :: d in n.deps ==> d in Fold(tr).written && Fold(tr).written[d].status == Success
  {
    if Acyclic(nodes) {
      var k := RunShape(nodes, tr);
      NextWave(nodes, n, k);
      if n.id in Done(nodes, k) {
        var j := DoneSplits(nodes, n.id, k);
        NextWave(nodes, n, j);
        DoneMonotone(nodes, j, k);
      }
    } else {
      NothingSucceedsInCycle(nodes, tr, n.id);
    }
  }

  lemma {:induction false} NothingSucceedsInCycle(nodes: Plan, tr: Trace, id: NodeId)
    requires !Acyclic(nodes) && Legal(nodes, tr)
    ensures Fold(tr).started == map[]
    ensures id in Fold(tr).written ==> Fold(tr).written[id].status in {Failed, Skipped}
  {
    if tr != [] {
      NothingSucceedsInCycle(nodes, tr[..|tr| - 1], id);
    }
  }

  lemma {:induction false} StartedOnce(nodes: Plan, tr: Trace, i: nat, j: nat)
    requires Legal(nodes, tr) && i < j < |tr| && tr[i].Started? && tr[j].Started?
    ensures tr[i].id != tr[j].id
  {
    LegalPrefix(nodes, tr, j);
    assert tr[..j][i] == tr[i];
    StartLeavesMark(tr[..j], i);
  }

  lemma {:induction false} StartLeavesMark(tr: Trace, i: nat)
    requires i < |tr| && tr[i].Started?
    ensures tr[i].id in Fold(tr).started
  {
    if i < |tr| - 1 {
      assert tr[..|tr| - 1][i] == tr[i];
      StartLeavesMark(tr[..|tr| - 1], i);
    }
  }

  lemma {:induction false} MarkHasStart(tr: Trace, id: NodeId) returns (i: nat)
    requires id in Fold(tr).started
    ensures i < |tr| && tr[i].Started? && tr[i].id == id
  {
    var init, e := tr[..|tr| - 1], tr[|tr| - 1];
    if e.Started? && e.id == id {
      i := |tr| - 1;
    } else {
      i := MarkHasStart(init, id);
    }
  }

  // ----- Finished runs -----

  lemma {:induction false} EndedBy(nodes: Plan, tr: Trace)
    requires Legal(nodes, tr) && Fold(tr).status in {Success, Failed}
    ensures tr != [] && tr[|tr| - 1] == TaskSet(Fold(tr).status)
    ensures MayEnd(nodes, Fold(tr[..|tr| - 1]), Fold(tr).status)
    ensures Fold(tr) == Fold(tr[..|tr| - 1]).(status := Fold(tr).status)
  {
  }

  /** Wave = level, for a run that ended successfully on a closed plan and for every completion
      order: each node is started exactly once, in the round that is the length of its longest
      dependency chain, and is recorded successful. */
  lemma {:induction false} WaveIsLongestChain(nodes: Plan, tr: Trace, n: TaskNode) returns (i: nat)
    requires UniqueIds(nodes) && Closed(nodes) && Legal(nodes, tr) && n in nodes
    requires Fold(tr).status == Success
    ensures Fold(tr).written.Keys == Ids(nodes) && AllSucceeded(Fold(tr))
    ensures i < |tr| && tr[i].Started? && tr[i].id == n.id && LongestChain(nodes, n.id, tr[i].wave)
    ensures forall j :: 0 <= j < |tr| && tr[j].Started? && tr[j].id == n.id ==> j == i
  {
    EndedBy(nodes, tr);
    var s := Fold(tr);
    var k := RunShape(nodes, tr);
    var m :| s.written.Keys == Done(nodes, m) && Wave(nodes, m) == {};
    EmptyWaveMeansDone(nodes, m);
    assert n.id in s.written && n.id in s.started;
    i := MarkHasStart(tr, n.id);
    LegalPrefix(nodes, tr, i);
    WaveIsLevel(nodes, n.id, tr[i].wave);
    forall j | 0 <= j < |tr| && tr[j].Started? && tr[j].id == n.id ensures j == i {
      if j < i {
        StartedOnce(nodes, tr, j, i);
      } else if i < j {
        StartedOnce(nodes, tr, i, j);
      }
    }
  }

  /** A recorded result stays. */
  lemma {:induction false} RecordStays(nodes: Plan, tr: Trace, i: nat)
    requires Legal(nodes, tr) && i < |tr| && tr[i].Wrote?
    ensures tr[i].node.id in Fold(tr).written && Fold(tr).written[tr[i].node.id] == tr[i].result
  {
    var before := tr[..|tr| - 1];
    if i < |before| {
      assert before[i] == tr[i];
      RecordStays(nodes, before, i);
    }
  }

  /** Once a failure is recorded, nothing is taken up any more. */
  lemma {:induction false} NothingStartsAfterFailure(nodes: Plan, tr: Trace, i: nat, j: nat)
    requires Legal(nodes, tr) && i < j < |tr|
    requires tr[i].Wrote? && tr[i].result.status == Failed
    ensures !tr[j].Started?
  {
    LegalPrefix(nodes, tr, j);
    assert tr[..j][i] == tr[i];
    RecordStays(nodes, tr[..j], i);
  }

  /** A finished run that was not canceled: on a closed plan every node has a final status, the task is
      successful exactly if all nodes are, and nothing was started once a failure was recorded. */
  lemma {:induction false} Outcome(nodes: Plan, tr: Trace)
    requires UniqueIds(nodes) && Closed(nodes) && Legal(nodes, tr)
    requires Fold(tr).status in {Success, Failed} && !Fold(tr).canceled
    ensures Fold(tr).written.Keys == Ids(nodes)
    ensures forall id :: id in Fold(tr).written ==> Fold(tr).written[id].status in {Success, Failed, Skipped}
    ensures Fold(tr).status == Success <==> AllSucceeded(Fold(tr))
    ensures forall i, j :: 0 <= i < j < |tr| && tr[i].Wrote? && tr[i].result.status == Failed ==> !tr[j].Started?
  {
    forall i, j | 0 <= i < j < |tr| && tr[i].Wrote? && tr[i].result.status == Failed ensures !tr[j].Started? {
      NothingStartsAfterFailure(nodes, tr, i, j);
    }
    EndedBy(nodes, tr);
    var s := Fold(tr);
    if Acyclic(nodes) {
      var k := RunShape(nodes, tr);
      if s.status == Success {
        var m :| s.written.Keys == Done(nodes, m) && Wave(nodes, m) == {};
        EmptyWaveMeansDone(nodes, m);
      }
    } else {
      forall id | id in s.written ensures s.written[id].status in {Failed, Skipped} {
        NothingSucceedsInCycle(nodes, tr, id);
      }
    }
  }

  /** Dependencies are never checked to exist: a successful task has run every node exactly if the
      plan is closed. */
  lemma {:induction false} SuccessMeansAllRanIffClosed(nodes: Plan, tr: Trace)
    requires UniqueIds(nodes) && Legal(nodes, tr) && Fold(tr).status == Success
    ensures Fold(tr).written.Keys == Ids(nodes) <==> Closed(nodes)
  {
    EndedBy(nodes, tr);
    var s := Fold(tr);
    var m :| s.written.Keys == Done(nodes, m) && Wave(nodes, m) == {};
    if Closed(nodes) {
      EmptyWaveMeansDone(nodes, m);
    }
    if s.written.Keys == Ids(nodes) {
      forall n, d | n in nodes && d in n.deps ensures d in Ids(nodes) {
        var j := DoneSplits(nodes, n.id, m);
        NextWave(nodes, n, j);
        DoneMonotone(nodes, j, m);
      }
    }
  }

  // ----- The outcome does not depend on the completion order -----

  /** `bad` decides which nodes fail when they are run. */
  ghost predicate FollowsOracle(s: Session, bad: set<NodeId>) {
    forall id :: id in s.written && id in s.started ==> (s.written[id].status == Failed <==> id in bad)
  }

  /** The final node statuses: success before the first wave with a failing node, that wave as the
      oracle says, and everything after it skipped. */
  ghost predicate StoppedAt(nodes: Plan, s: Session, bad: set<NodeId>, k: nat) {
    && Done(nodes, k) !! bad
    && (Wave(nodes, k) == {} || Wave(nodes, k) * bad != {})
    && s.written.Keys == (if Wave(nodes, k) == {} then Done(nodes, k) else Ids(nodes))
    && forall id :: id in s.written ==> EndsAs(nodes, s, bad, k, id)
  }

  /** The final status of one node. */
  ghost predicate EndsAs(nodes: Plan, s: Session, bad: set<NodeId>, k: nat, id: NodeId)
    requires id in s.written
  {
    s.written[id].status == if id in Done(nodes, k + 1) then (if id in bad then Failed else Success) else Skipped
  }

  lemma {:induction false} SuccessStops(nodes: Plan, s: Session, bad: set<NodeId>, now: nat, k: nat)
    requires InWave(nodes, s, now) && FollowsOracle(s, bad) && AllSucceeded(s)
    requires s.written.Keys == Done(nodes, k) && Wave(nodes, k) == {}
    ensures StoppedAt(nodes, s, bad, k)
  {
    assert Done(nodes, k + 1) == Done(nodes, k);
    hide Wave, Done, Ids;
    forall id | id in s.written ensures EndsAs(nodes, s, bad, k, id) && id !in bad {
      assert id in s.started;
    }
  }

  /** The failure that ended a run lies in the wave it was working on, which is taken up completely. */
  lemma {:induction false} FailureOnSets(s: Session, all: set<NodeId>, done: set<NodeId>, next: set<NodeId>, f: NodeId)
    requires Shape(s, all, done, next) && f in s.written && s.written[f].status == Failed
    ensures f in s.started && f in next && f !in done && s.started.Keys == next
  {
    assert f !in done && f in s.started;
    assert s.written.Keys != done;
  }

  lemma {:induction false} DoneIsGood(
      s: Session, all: set<NodeId>, done: set<NodeId>, next: set<NodeId>, bad: set<NodeId>)
    requires Shape(s, all, done, next) && FollowsOracle(s, bad)
    ensures done !! bad
  {
    forall id | id in done ensures id !in bad {
      assert s.written[id].status == Success && id in s.started;
    }
  }

  lemma {:induction false} FailureStops(nodes: Plan, s: Session, bad: set<NodeId>, k: nat)
    requires InWave(nodes, s, k) && FollowsOracle(s, bad) && SomeFailed(s) && s.written.Keys == Ids(nodes)
    ensures StoppedAt(nodes, s, bad, k)
  {
    var f :| f in s.written && s.written[f].status == Failed;
    FailureOnSets(s, Ids(nodes), Done(nodes, k), Done(nodes, k + 1), f);
    DoneIsGood(s, Ids(nodes), Done(nodes, k), Done(nodes, k + 1), bad);
    assert f in bad;
    DoneNext(nodes, k + 1);
    hide Wave, Done, Ids, Shape, EndsAs, FollowsOracle;
    assert f in Wave(nodes, k) * bad;
    forall id | id in s.written ensures EndsAs(nodes, s, bad, k, id) {
      FailureEnd(nodes, s, bad, k, id);
    }
  }

  lemma {:induction false} FailureEnd(nodes: Plan, s: Session, bad: set<NodeId>, k: nat, id: NodeId)
    requires InWave(nodes, s, k) && FollowsOracle(s, bad) && id in s.written && s.started.Keys == Done(nodes, k + 1)
    ensures EndsAs(nodes, s, bad, k, id)
  {
    hide Wave, Done, Ids;
  }

  lemma {:induction false} FinalStatuses(nodes: Plan, tr: Trace, bad: set<NodeId>) returns (k: nat)
    requires UniqueIds(nodes) && Acyclic(nodes) && Legal(nodes, tr)
    requires Fold(tr).status in {Success, Failed} && !Fold(tr).canceled && FollowsOracle(Fold(tr), bad)
    ensures StoppedAt(nodes, Fold(tr), bad, k)
  {
    hide InWave, StoppedAt, FollowsOracle, Done, Wave;
    EndedBy(nodes, tr);
    var s := Fold(tr);
    k := RunShape(nodes, tr);
    if s.status == Success {
      var m :| s.written.Keys == Done(nodes, m) && Wave(nodes, m) == {};
      SuccessStops(nodes, s, bad, k, m);
      k := m;
    } else {
      FailureStops(nodes, s, bad, k);
    }
  }

  /** Two finished, uncanceled runs in which the same nodes fail end with the same node statuses. */
  lemma {:induction false} OutcomeIsOrderIndependent(nodes: Plan, tr: Trace, tr': Trace, bad: set<NodeId>)
    requires UniqueIds(nodes) && Acyclic(nodes) && Legal(nodes, tr) && Legal(nodes, tr')
    requires Fold(tr).status in {Success, Failed} && Fold(tr').status in {Success, Failed}
    requires !Fold(tr).canceled && !Fold(tr').canceled
    requires FollowsOracle(Fold(tr), bad) && FollowsOracle(Fold(tr'), bad)
    ensures Fold(tr).written.Keys == Fold(tr').written.Keys
    ensures forall id :: id in Fold(tr).written ==> Fold(tr).written[id].status == Fold(tr').written[id].status
  {
    var k := FinalStatuses(nodes, tr, bad);
    var k' := FinalStatuses(nodes, tr', bad);
    SameStop(nodes, bad, Fold(tr), k, Fold(tr'), k');
  }

  lemma {:induction false} EmptyWavesStay(nodes: Plan, k: nat, j: nat)
    requires UniqueIds(nodes) && Wave(nodes, k) == {} && k <= j
    ensures Done(nodes, j) == Done(nodes, k) && Wave(nodes, j) == {}
    decreases j
  {
    if k < j {
      EmptyWavesStay(nodes, k, j - 1);
      assert Done(nodes, j) == Done(nodes, k);
    }
  }

  lemma {:induction false} SameStop(nodes: Plan, bad: set<NodeId>, s: Session, k: nat, s': Session, k': nat)
    requires UniqueIds(nodes)
    requires StoppedAt(nodes, s, bad, k) && StoppedAt(nodes, s', bad, k')
    ensures s.written.Keys == s'.written.Keys
    ensures forall id :: id in s.written ==> s.written[id].status == s'.written[id].status
    decreases if k <= k' then 0 else 1
  {
    if k > k' {
      SameStop(nodes, bad, s', k', s, k);
    } else if k < k' {
      DoneMonotone(nodes, k + 1, k');
      assert Wave(nodes, k) * bad == {};
      EmptyWavesStay(nodes, k, k');
      EmptyWavesStay(nodes, k, k' + 1);
      EmptyWavesStay(nodes, k, k + 1);
    }
  }
}
