/** When does a creation set its instance running? The creation plans of module Plans, over crashes,
    resumes and reruns. */
module CreationRuns {
  import opened Graph
  import opened Waves
  import opened Store
  import opened Plans
  import opened LastNode
  import Runs

  /** Everything a creation does, but for its closing node and the DTS registrations. */
  ghost function Others(plan: Plan, z: TaskNode): set<NodeId> {
    set n | n in plan && !IsDts(n) && n != z :: n.id
  }

  /** A creation plan that `z` closes; nothing waits for the nodes of `side`. */
  ghost predicate Creation(
      name: string, plan: Plan, level: map<NodeId, nat>, z: TaskNode, side: set<NodeId>)
  {
    Creates(name, plan, level) && Closes(plan, z, side) && SetsRunning(name, z)
  }

  // ----- What the closing node depends on -----

  lemma {:induction false} CreationShape(
      name: string, plan: Plan, level: map<NodeId, nat>, z: TaskNode, side: set<NodeId>)
    requires Creation(name, plan, level, z, side)
    ensures UniqueIds(plan) && Closed(plan) && Acyclic(plan) && z in plan && z.id !in Others(plan, z)
    ensures Others(plan, z) <= Ids(plan) && side <= Others(plan, z)
  {
    hide Acyclic, Closed;
    LevelledIsAcyclic(plan, level);
    forall id | id in side ensures id in Others(plan, z) {
      var n :| n in plan && n.id == id;
      assert !IsDts(n) && n != z;
    }
  }

  lemma {:induction false} HigherUser(
      name: string, plan: Plan, level: map<NodeId, nat>, z: TaskNode, side: set<NodeId>, m: TaskNode)
    returns (u: TaskNode)
    requires Creation(name, plan, level, z, side) && m in plan && !IsDts(m) && m != z && m.id !in side
    ensures u in plan && !IsDts(u) && u.id !in side && m.id in u.deps
    ensures m.id in level && u.id in level && z.id in level && level[m.id] < level[u.id] <= level[z.id]
  {
    assert m.id != z.id;
    assert WaitedFor(plan, side, m.id);
    u :| u in plan && !IsDts(u) && u.id !in side && m.id in u.deps;
    assert OnLevel(level, u) && OnLevel(level, z);
  }

  lemma {:induction false} LeadsToClosing(
      name: string, plan: Plan, level: map<NodeId, nat>, z: TaskNode, side: set<NodeId>, m: TaskNode)
    requires Creation(name, plan, level, z, side) && m in plan && !IsDts(m) && m != z && m.id !in side
    requires z.id in level && m.id in level && level[m.id] < level[z.id]
    ensures DependsOn(plan, z.id, m.id)
    decreases level[z.id] - level[m.id]
  {
    hide Creation, DependsOn;
    var u := HigherUser(name, plan, level, z, side, m);
    CreationShape(name, plan, level, z, side);
    if u != z {
      if level[u.id] == level[z.id] {
        OnTop(name, plan, level, z, side, u);
      }
      LeadsToClosing(name, plan, level, z, side, u);
    }
    DepsOfMember(plan, u);
    DependsFurther(plan, z.id, u.id, m.id);
  }

  lemma {:induction false} OnTop(
      name: string, plan: Plan, level: map<NodeId, nat>, z: TaskNode, side: set<NodeId>, u: TaskNode)
    requires Creation(name, plan, level, z, side) && u in plan && !IsDts(u) && u != z
    ensures u.id in level && z.id in level && level[u.id] < level[z.id]
  {
    assert OnLevel(level, u) && OnLevel(level, z);
  }

  /** The closing node depends on every other node of the creation but those of `side`. */
  lemma {:induction false} DependsOnAllBut(
      name: string, plan: Plan, level: map<NodeId, nat>, z: TaskNode, side: set<NodeId>, m: TaskNode)
    requires Creation(name, plan, level, z, side) && m in plan && !IsDts(m) && m != z
    ensures DependsOn(plan, z.id, m.id) <==> m.id !in side
  {
    hide Creation, DependsOn;
    OnTop(name, plan, level, z, side, m);
    if m.id in side {
      NothingDependsOnSide(name, plan, level, z, side, m.id);
    } else {
      LeadsToClosing(name, plan, level, z, side, m);
    }
  }

  lemma {:induction false} NothingDependsOnSide(
      name: string, plan: Plan, level: map<NodeId, nat>, z: TaskNode, side: set<NodeId>, id: NodeId)
    requires Creation(name, plan, level, z, side) && id in side
    ensures !DependsOn(plan, z.id, id)
  {
    if w :| Walk(plan, w) && |w| > 1 && w[0] == z.id && w[|w| - 1] == id {
      var i := |w| - 2;
      assert w[i + 1] in DepsOf(plan, w[i]);
      var n := PlanNode(plan, w[i], id);
      assert false;
    }
  }

  lemma {:induction false} CreationIsTwinned(
      name: string, plan: Plan, level: map<NodeId, nat>, z: TaskNode, side: set<NodeId>)
    requires Creation(name, plan, level, z, side)
    ensures Twinned(plan, z.id, Others(plan, z))
  {
    hide DependsOn;
    CreationShape(name, plan, level, z, side);
    forall m | m in plan && m.id in Others(plan, z) && !DependsOn(plan, z.id, m.id)
      ensures exists b :: b in plan && DependsOn(plan, z.id, b.id) && forall x :: x in m.deps ==> x in b.deps
    {
      var k :| k in plan && !IsDts(k) && k != z && k.id == m.id;
      Runs.SameNode(plan, k, m);
      DependsOnAllBut(name, plan, level, z, side, m);
      assert HasTwinBut(plan, side, m, z.id);
      var b :| b in plan && !IsDts(b) && b.id !in side && b.id != z.id && forall x :: x in m.deps ==> x in b.deps;
      DependsOnAllBut(name, plan, level, z, side, b);
    }
  }

  // ----- Over every history -----

  /** Whatever crashes, resumes and reruns a creation consists of: when the instance is about to be set
      running, every node but those of `side` is recorded successful. */
  lemma {:induction false} AllButSideComeFirst(
      name: string, plan: Plan, level: map<NodeId, nat>, z: TaskNode, side: set<NodeId>,
      keepsDeps: bool, d: Disk, m: TaskNode)
    requires Creation(name, plan, level, z, side) && TakenUpAt(plan, keepsDeps, z.id, d)
    requires m in plan && !IsDts(m) && m != z && m.id !in side
    ensures Succeeded(d.rows, m.id)
  {
    hide Creation, TakenUpAt, DependsOn;
    CreationShape(name, plan, level, z, side);
    DependsOnAllBut(name, plan, level, z, side, m);
    DependenciesComeFirst(plan, keepsDeps, z, d, m.id);
  }

  /** The instance is set running last in every history exactly if `side` is empty. */
  lemma {:induction false} RunningComesLastIff(
      name: string, plan: Plan, level: map<NodeId, nat>, z: TaskNode, side: set<NodeId>, keepsDeps: bool)
    requires Creation(name, plan, level, z, side)
    ensures (forall d :: TakenUpAt(plan, keepsDeps, z.id, d) ==> Have(d.rows, Others(plan, z))) <==> side == {}
  {
    hide Creation, TakenUpAt, DependsOn, Acyclic, Closed, UniqueIds, Have;
    CreationShape(name, plan, level, z, side);
    ComesLastIff(plan, keepsDeps, z, Others(plan, z));
    forall id | id in Others(plan, z) ensures DependsOn(plan, z.id, id) <==> id !in side {
      var m :| m in plan && !IsDts(m) && m != z && m.id == id;
      DependsOnAllBut(name, plan, level, z, side, m);
    }
  }

  /** Crashes alone suffice: with a node in `side`, the closing node can have set the instance running and
      be recorded successful while that node is not. */
  lemma {:induction false} RunningTooEarly(
      name: string, plan: Plan, level: map<NodeId, nat>, z: TaskNode, side: set<NodeId>, keepsDeps: bool, id: NodeId)
    returns (d: Disk)
    requires Creation(name, plan, level, z, side) && id in side
    ensures Reachable(plan, keepsDeps, d) && Succeeded(d.rows, z.id) && !Succeeded(d.rows, id)
  {
    hide Creation, TakenUpAt, DependsOn, Acyclic, Closed, UniqueIds, Reachable;
    CreationShape(name, plan, level, z, side);
    NothingDependsOnSide(name, plan, level, z, side, id);
    var early;
    early, d := CanComeEarly(plan, keepsDeps, z, id);
  }

  /** Only the proxies before the last can be overtaken, so a creation with at most one proxy is safe. */
  lemma {:induction false} OneProxyIsSafe(proxies: seq<string>)
    ensures SideProxies(proxies) == {} <==> |proxies| <= 1
  {
    if |proxies| > 1 {
      var first: nat := 0;
      assert ProxyId(first) in SideProxies(proxies);
    }
  }

  // ----- On one snapshot -----

  /** In a run that resumes a snapshot, everything else is successful when the instance is about to be set
      running, in any completion order, exactly if the rows say so. */
  lemma {:induction false} ClosesSafelyIff(
      name: string, plan: Plan, level: map<NodeId, nat>, z: TaskNode, side: set<NodeId>,
      keepsDeps: bool, d: Disk, nodes: Plan)
    requires Creation(name, plan, level, z, side) && Runs.Sound(plan, d.rows) && ToRun(d, nodes)
    ensures ComesLastIn(keepsDeps, d, nodes, z.id, Others(plan, z))
      <==> SafeToClose(plan, d.rows, z.id, Others(plan, z))
  {
    hide Creation, DependsOn, Acyclic, Closed, UniqueIds, ComesLastIn, SafeToClose, Twinned, ToRun, Runs.Sound;
    CreationShape(name, plan, level, z, side);
    CreationIsTwinned(name, plan, level, z, side);
    SafeToCloseIff(plan, keepsDeps, d, nodes, z.id, Others(plan, z));
  }

  /** On a snapshot that only crashes led to: the closing node is successful itself, or one of its direct
      dependencies is not yet, or everything else is. */
  lemma {:induction false} ClosesSafelyAfterCrashIff(
      name: string, plan: Plan, level: map<NodeId, nat>, z: TaskNode, side: set<NodeId>,
      keepsDeps: bool, d: Disk, nodes: Plan)
    requires Creation(name, plan, level, z, side) && Crashed(plan, d) && ToRun(d, nodes)
    ensures ComesLastIn(keepsDeps, d, nodes, z.id, Others(plan, z)) <==>
      || Succeeded(d.rows, z.id) || (exists x :: x in z.deps && !Succeeded(d.rows, x))
      || Have(d.rows, Others(plan, z))
  {
    CrashedIsSafeIff(name, plan, level, z, side, d);
    hide Creation, DependsOn, ComesLastIn, SafeToClose, ToRun, Runs.Sound;
    ClosesSafelyIff(name, plan, level, z, side, keepsDeps, d, nodes);
  }

  lemma {:induction false} CrashedIsSafeIff(
      name: string, plan: Plan, level: map<NodeId, nat>, z: TaskNode, side: set<NodeId>, d: Disk)
    requires Creation(name, plan, level, z, side) && Crashed(plan, d)
    ensures SafeToClose(plan, d.rows, z.id, Others(plan, z)) <==>
      || Succeeded(d.rows, z.id) || (exists x :: x in z.deps && !Succeeded(d.rows, x))
      || Have(d.rows, Others(plan, z))
  {
    hide Creation, DependsOn, Acyclic, Closed, UniqueIds;
    CreationShape(name, plan, level, z, side);
    DepsOfMember(plan, z);
    assert z.id in Ids(plan);
    forall a ensures DependsOn(plan, z.id, a) ==> Succeeded(d.rows, a) || Waiting(d.rows, a) {
      if DependsOn(plan, z.id, a) {
        BelowIsInside(plan, z.id, a);
      }
    }
  }
}
