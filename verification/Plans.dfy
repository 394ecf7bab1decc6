/** The creation plans of src/instance.rs, for any number of slaves, shards, xenon nodes and proxies,
    with the levels that make the engine's wave theorem apply to them. */
module Plans {
  import opened Graph
  import opened Wrappers
  import opened Waves
  import opened Decimal
  import opened Instance
  import Sessions

  // ----- Node ids -----

  function SlaveId(i: nat): NodeId { "slave" + Dec(i + 1) }

  function ProxyId(i: nat): NodeId { if i == 0 then "proxy" else "proxy" + Dec(i + 1) }

  function XenonId(i: nat): NodeId { "node" + Dec(i + 1) }

  function ShardId(k: nat): string { "s" + Dec(k) }

  function DtsId(container: string): NodeId { "dts-" + container }

  predicate IsDts(n: TaskNode) {
    "dts-" <= n.id
  }

  lemma {:induction false} SlaveIdInjective(i: nat, j: nat)
    ensures SlaveId(i) == SlaveId(j) ==> i == j
  {
    if SlaveId(i) == SlaveId(j) {
      assert SlaveId(i)[5..] == Dec(i + 1) && SlaveId(j)[5..] == Dec(j + 1);
      DecInjective(i + 1, j + 1);
    }
  }

  lemma {:induction false} XenonIdInjective(i: nat, j: nat)
    ensures XenonId(i) == XenonId(j) ==> i == j
  {
    if XenonId(i) == XenonId(j) {
      assert XenonId(i)[4..] == Dec(i + 1) && XenonId(j)[4..] == Dec(j + 1);
      DecInjective(i + 1, j + 1);
    }
  }

  lemma {:induction false} ProxyIdInjective(i: nat, j: nat)
    ensures ProxyId(i) == ProxyId(j) ==> i == j
    ensures ProxyId(i) != "proxy_conf"
  {
    if i > 0 {
      assert ProxyId(i)[5..] == Dec(i + 1);
      assert IsDigit(ProxyId(i)[5]);
    }
    if j > 0 {
      assert ProxyId(j)[5..] == Dec(j + 1);
      if i > 0 && ProxyId(i) == ProxyId(j) {
        DecInjective(i + 1, j + 1);
      }
    }
  }

  lemma {:induction false} ShardNodeInjective(j: nat, k: nat, x: string, y: string)
    requires x != "" && y != "" && !IsDigit(x[0]) && !IsDigit(y[0])
    requires ShardId(j) + x == ShardId(k) + y
    ensures j == k && x == y
  {
    assert (ShardId(j) + x)[1..] == Dec(j) + x;
    assert (ShardId(k) + y)[1..] == Dec(k) + y;
    DigitsThenMark(Dec(j), Dec(k), x, y);
    DecInjective(j, k);
  }

  // ----- What a creation plan promises -----

  /** The step that makes the instance visible as running. */
  predicate SetsRunning(name: string, n: TaskNode) {
    UpdateInstanceStatus(name, "running") in n.steps
  }

  /** Every statement comes after its own container was started and its server has answered. */
  ghost predicate InOrder(steps: seq<Step>) {
    forall j :: 0 <= j < |steps| && steps[j].ExecSql? ==>
      exists a, b :: 0 <= a < b < j
        && IsStart(steps[a], steps[j].container) && steps[b] == WaitMysql(steps[j].container)
  }

  predicate IsStart(st: Step, c: string) {
    st.DockerRun? && st.container == c
  }

  /** Every node lies on its level, below `top`, and none of them ends the creation. */
  ghost predicate Under(name: string, nodes: Plan, level: map<NodeId, nat>, top: nat) {
    && UniqueIds(nodes) && Levels(nodes, level)
    && forall n :: n in nodes ==> level[n.id] < top && !SetsRunning(name, n) && !IsDts(n) && InOrder(n.steps)
  }

  ghost predicate NoDts(nodes: Plan) {
    forall n :: n in nodes ==> !IsDts(n)
  }

  /** Exactly one node ends the creation, strictly above all others except the DTS registrations. */
  ghost predicate Creates(name: string, nodes: Plan, level: map<NodeId, nat>) {
    && UniqueIds(nodes) && Levels(nodes, level)
    && (exists n :: n in nodes && SetsRunning(name, n) && !IsDts(n))
    && (forall n :: n in nodes ==> InOrder(n.steps))
    && forall n, m :: n in nodes && m in nodes && SetsRunning(name, n) && m != n && !IsDts(m) ==>
         level[m.id] < level[n.id]
  }

  /** Everything a plan does, each step as often as it occurs. */
  ghost function StepsOf(nodes: Plan): multiset<Step> {
    FirstSteps(nodes, |nodes|)
  }

  ghost function FirstSteps(nodes: Plan, n: nat): multiset<Step>
    requires n <= |nodes|
    decreases n
  {
    if n == 0 then multiset{} else FirstSteps(nodes, n - 1) + Elements(nodes[n - 1].steps)
  }

  ghost function Elements(steps: seq<Step>): multiset<Step> {
    multiset(steps)
  }

  lemma {:induction false} FirstStepsStay(nodes: Plan, n: TaskNode, k: nat)
    requires k <= |nodes|
    ensures FirstSteps(nodes + [n], k) == FirstSteps(nodes, k)
    decreases k
  {
    if k > 0 {
      FirstStepsStay(nodes, n, k - 1);
    }
  }

  lemma {:induction false} StepsPushed(nodes: Plan, n: TaskNode)
    ensures StepsOf(nodes + [n]) == StepsOf(nodes) + Elements(n.steps)
  {
    FirstStepsStay(nodes, n, |nodes|);
  }

  /** `n` may be added on level `l`: its id is new, its dependencies lie below, and `high` is one of
      them just below. */
  ghost predicate Fits(ids: set<NodeId>, level: map<NodeId, nat>, n: TaskNode, l: nat, high: NodeId) {
    && n.id !in ids && |n.id| > 1 && n.id[1] != 't'
    && (forall d :: d in n.deps ==> d in level && level[d] < l)
    && (l > 0 ==> high in n.deps && high in level && level[high] == l - 1)
  }

  lemma {:induction false} StaysOnLevel(level: map<NodeId, nat>, id: NodeId, l: nat, m: TaskNode)
    requires OnLevel(level, m) && id !in level
    ensures OnLevel(level[id := l], m)
  {
    if level[m.id] > 0 {
      var d :| d in m.deps && d in level && level[d] == level[m.id] - 1;
      assert level[id := l][d] == level[d];
    }
  }

  lemma {:induction false} NewOnLevel(level: map<NodeId, nat>, n: TaskNode, l: nat, high: NodeId)
    requires n.id !in level && forall d :: d in n.deps ==> d in level && level[d] < l
    requires l > 0 ==> high in n.deps && high in level && level[high] == l - 1
    ensures OnLevel(level[n.id := l], n)
  {
    var level' := level[n.id := l];
    assert forall d :: d in n.deps ==> level'[d] == level[d];
    assert l > 0 ==> level'[high] == level'[n.id] - 1;
  }

  lemma {:induction false} PushedLevels(nodes: Plan, level: map<NodeId, nat>, n: TaskNode, l: nat, high: NodeId)
    requires Levels(nodes, level) && n.id !in Ids(nodes)
    requires forall d :: d in n.deps ==> d in level && level[d] < l
    requires l > 0 ==> high in n.deps && high in level && level[high] == l - 1
    ensures Levels(nodes + [n], level[n.id := l])
  {
    hide OnLevel;
    var nodes', level' := nodes + [n], level[n.id := l];
    NewOnLevel(level, n, l, high);
    forall m | m in nodes' ensures OnLevel(level', m) {
      if m != n {
        assert m in nodes;
        StaysOnLevel(level, n.id, l, m);
      }
    }
    assert level'.Keys == level.Keys + {n.id};
    assert Ids(nodes') == Ids(nodes) + {n.id};
  }

  lemma {:induction false} PushedUnder(
      name: string, nodes: Plan, level: map<NodeId, nat>, top: nat, n: TaskNode, l: nat, high: NodeId)
    requires Under(name, nodes, level, top) && Fits(Ids(nodes), level, n, l, high) && !SetsRunning(name, n)
    requires InOrder(n.steps)
    ensures Under(name, nodes + [n], level[n.id := l], if l < top then top else l + 1)
    ensures Ids(nodes + [n]) == Ids(nodes) + {n.id}
    ensures StepsOf(nodes + [n]) == StepsOf(nodes) + Elements(n.steps)
  {
    hide Levels, UniqueIds, InOrder, FirstSteps;
    StepsPushed(nodes, n);
    PushedIds(nodes, n);
    PushedLevels(nodes, level, n, l, high);
    assert "dts-"[1] == 't';
    assert forall m :: m in nodes ==> m.id in Ids(nodes);
  }

  lemma {:induction false} PushedLast(
      name: string, nodes: Plan, level: map<NodeId, nat>, n: TaskNode, l: nat, high: NodeId)
    requires Under(name, nodes, level, l) && Fits(Ids(nodes), level, n, l, high) && SetsRunning(name, n)
    requires InOrder(n.steps)
    ensures Creates(name, nodes + [n], level[n.id := l]) && NoDts(nodes + [n])
    ensures Ids(nodes + [n]) == Ids(nodes) + {n.id}
    ensures StepsOf(nodes + [n]) == StepsOf(nodes) + Elements(n.steps)
  {
    hide Levels, UniqueIds, InOrder, FirstSteps;
    StepsPushed(nodes, n);
    PushedIds(nodes, n);
    PushedLevels(nodes, level, n, l, high);
    assert "dts-"[1] == 't';
    assert n in nodes + [n];
    assert forall m :: m in nodes ==> m.id in Ids(nodes);
  }

  /** `running` is set only after everything else: in any legal run of a creation plan, whatever the
      completion order, when the node that ends the creation is taken up, every other node except the
      DTS registrations has been recorded successful. */
  lemma {:induction false} RunningComesLast(
      name: string, nodes: Plan, level: map<NodeId, nat>, tr: Sessions.Trace, i: nat, n: TaskNode, m: TaskNode)
    requires Creates(name, nodes, level) && Sessions.Legal(nodes, tr)
    requires i < |tr| && tr[i].Started? && n in nodes && tr[i].id == n.id && SetsRunning(name, n)
    requires m in nodes && m != n && !IsDts(m)
    ensures var s := Sessions.Fold(tr[..i]); m.id in s.written && s.written[m.id].status == Sessions.Success
  {
    Sessions.LegalPrefix(nodes, tr, i);
    LevelsAreWaves(nodes, level, tr[i].wave);
    assert level[n.id] == tr[i].wave;
    assert level[m.id] < level[n.id];
  }

  // ----- Who waits for whom -----

  /** Some node outside `side` waits for `id`. */
  ghost predicate WaitedFor(nodes: Plan, side: set<NodeId>, id: NodeId) {
    exists u :: u in nodes && !IsDts(u) && u.id !in side && id in u.deps
  }

  /** Nothing waits for the nodes of `side`; every other node, except those in `open`, is waited for. */
  ghost predicate Feeds(nodes: Plan, side: set<NodeId>, open: set<NodeId>) {
    && (forall n :: n in nodes && !IsDts(n) && n.id !in side && n.id !in open ==> WaitedFor(nodes, side, n.id))
    && forall n, d :: n in nodes && d in n.deps ==> d !in side
  }

  /** A node outside `side` waits for everything that `n` waits for. */
  ghost predicate HasTwin(nodes: Plan, side: set<NodeId>, n: TaskNode) {
    exists b :: b in nodes && !IsDts(b) && b.id !in side && forall d :: d in n.deps ==> d in b.deps
  }

  ghost predicate Twins(nodes: Plan, side: set<NodeId>) {
    && side <= Ids(nodes)
    && forall n :: n in nodes && n.id in side ==> !IsDts(n) && HasTwin(nodes, side, n)
  }

  /** Every node ends up in `z`, except those of `side`, for which nothing waits. */
  ghost predicate Closes(nodes: Plan, z: TaskNode, side: set<NodeId>) {
    && z in nodes && !IsDts(z) && z.id !in side && Feeds(nodes, side, {z.id}) && side <= Ids(nodes)
    && forall n :: n in nodes && n.id in side ==> !IsDts(n) && HasTwinBut(nodes, side, n, z.id)
  }

  ghost predicate HasTwinBut(nodes: Plan, side: set<NodeId>, n: TaskNode, z: NodeId) {
    exists b :: b in nodes && !IsDts(b) && b.id !in side && b.id != z && forall d :: d in n.deps ==> d in b.deps
  }

  lemma {:induction false} PushedFeeds(
      nodes: Plan, side: set<NodeId>, open: set<NodeId>, n: TaskNode, open': set<NodeId>)
    requires Feeds(nodes, side, open) && |n.id| > 1 && n.id[1] != 't'
    requires forall d :: d in n.deps ==> d !in side
    requires forall id :: id in open && (n.id in side || id !in n.deps) ==> id in open'
    requires n.id in side || n.id in open'
    ensures Feeds(nodes + [n], side, open')
  {
    var nodes' := nodes + [n];
    assert "dts-"[1] == 't';
    forall m | m in nodes' && !IsDts(m) && m.id !in side && m.id !in open' ensures WaitedFor(nodes', side, m.id) {
      if m.id in open {
        assert n in nodes' && m.id in n.deps;
      } else {
        assert m in nodes;
        var u :| u in nodes && !IsDts(u) && u.id !in side && m.id in u.deps;
        assert u in nodes';
      }
    }
  }

  lemma {:induction false} PushedTwins(nodes: Plan, side: set<NodeId>, n: TaskNode)
    requires Twins(nodes, side) && n.id !in side
    ensures Twins(nodes + [n], side)
  {
    var nodes' := nodes + [n];
    assert Ids(nodes) <= Ids(nodes') by {
      assert forall m :: m in nodes ==> m in nodes';
    }
    forall m | m in nodes' && m.id in side ensures !IsDts(m) && HasTwin(nodes', side, m) {
      assert HasTwin(nodes, side, m);
      var b :| b in nodes && !IsDts(b) && b.id !in side && forall d :: d in m.deps ==> d in b.deps;
      assert b in nodes';
    }
  }

  /** The last node of a creation waits for everything that nothing else waits for. */
  lemma {:induction false} PushedCloses(nodes: Plan, side: set<NodeId>, open: set<NodeId>, z: TaskNode)
    requires Feeds(nodes, side, open) && Twins(nodes, side) && z.id !in side && z.id !in Ids(nodes)
    requires |z.id| > 1 && z.id[1] != 't'
    requires forall id :: id in open ==> id in z.deps
    requires forall d :: d in z.deps ==> d !in side
    ensures Closes(nodes + [z], z, side)
  {
    hide Feeds, Twins, HasTwinBut;
    PushedFeeds(nodes, side, open, z, {z.id});
    PushedTwins(nodes, side, z);
    assert "dts-"[1] == 't';
    forall n | n in nodes + [z] && n.id in side ensures !IsDts(n) && HasTwinBut(nodes + [z], side, n, z.id) {
      OlderTwin(nodes, side, z, n);
    }
    assert side <= Ids(nodes + [z]) by {
      SideThere(nodes + [z], side);
    }
  }

  lemma {:induction false} SideThere(nodes: Plan, side: set<NodeId>)
    requires Twins(nodes, side)
    ensures side <= Ids(nodes)
  {
  }

  lemma {:induction false} OlderTwin(nodes: Plan, side: set<NodeId>, z: TaskNode, n: TaskNode)
    requires Twins(nodes, side) && z.id !in Ids(nodes) && z.id !in side && n in nodes + [z] && n.id in side
    ensures !IsDts(n) && HasTwinBut(nodes + [z], side, n, z.id)
  {
    assert n in nodes && HasTwin(nodes, side, n);
    var b :| b in nodes && !IsDts(b) && b.id !in side && forall d :: d in n.deps ==> d in b.deps;
    assert b in nodes + [z] && b.id in Ids(nodes);
  }

  lemma {:induction false} NothingFeeds()
    ensures Feeds([], {}, {})
  {
  }

  /** Nodes that are to be added later are not waited for yet. */
  lemma {:induction false} SideIsNew(nodes: Plan, level: map<NodeId, nat>, side: set<NodeId>, open: set<NodeId>)
    requires Levels(nodes, level) && Feeds(nodes, {}, open) && Ids(nodes) !! side
    ensures Feeds(nodes, side, open)
  {
    forall n, d | n in nodes && d in n.deps ensures d !in side {
      assert OnLevel(level, n);
    }
    forall n | n in nodes && !IsDts(n) && n.id !in open ensures WaitedFor(nodes, side, n.id) {
      assert WaitedFor(nodes, {}, n.id);
      var u :| u in nodes && !IsDts(u) && n.id in u.deps;
      assert u.id in Ids(nodes);
    }
  }

  // ----- The servers that a plan builds -----

  /** A server that is registered asks for these steps, once each: it is started under its own server id,
      waited for, and then follows its source, or gets the replication user if it is a master. */
  predicate Wants(s: Server, st: Step) {
    match st
    case DockerRun(c, Some(id)) => c == s.container && id == s.serverId
    case WaitMysql(c) => c == s.container
    case ExecSql(c, FollowSource(source)) => c == s.container && s.source == Some(source)
    case ExecSql(c, CreateReplicationUser) => c == s.container && s.source == None
    case _ => false
  }

  /** The kinds of steps that servers ask for. */
  predicate OfServers(st: Step) {
    st.ExecSql? || st.WaitMysql? || (st.DockerRun? && st.serverId.Some?)
  }

  /** How many of the first `n` servers ask for `st`. */
  ghost function Wanting(servers: seq<Server>, n: nat, st: Step): nat
    requires n <= |servers|
    decreases n
  {
    if n == 0 then 0 else Wanting(servers, n - 1, st) + if Wants(servers[n - 1], st) then 1 else 0
  }

  /** The plan does for the servers exactly what they ask for, starts the proxies without a server id, and
      has every statement after its own server is up. */
  ghost predicate Builds(nodes: Plan, servers: seq<Server>, proxies: seq<string>) {
    && (forall st :: OfServers(st) ==> StepsOf(nodes)[st] == Wanting(servers, |servers|, st))
    && (forall c :: StepsOf(nodes)[DockerRun(c, None)] == multiset(proxies)[c])
    && (forall n :: n in nodes ==> InOrder(n.steps))
  }

  lemma {:induction false} WantingAppend(a: seq<Server>, b: seq<Server>, n: nat, st: Step)
    requires n <= |b|
    ensures Wanting(a + b, |a| + n, st) == Wanting(a, |a|, st) + Wanting(b, n, st)
    decreases n
  {
    if n == 0 {
      WantingPrefix(a, b, |a|, st);
    } else {
      WantingAppend(a, b, n - 1, st);
    }
  }

  lemma {:induction false} WantingPrefix(a: seq<Server>, b: seq<Server>, n: nat, st: Step)
    requires n <= |a|
    ensures Wanting(a + b, n, st) == Wanting(a, n, st)
    decreases n
  {
    if n > 0 {
      WantingPrefix(a, b, n - 1, st);
    }
  }

  /** With distinct containers no step is asked for twice. */
  lemma {:induction false} WantedOnce(servers: seq<Server>, n: nat, st: Step)
    requires n <= |servers| && OfServers(st)
    requires forall i, j :: 0 <= i < j < |servers| ==> servers[i].container != servers[j].container
    ensures Wanting(servers, n, st) == if exists i :: 0 <= i < n && Wants(servers[i], st) then 1 else 0
    decreases n
  {
    if n > 0 {
      WantedOnce(servers, n - 1, st);
      if Wants(servers[n - 1], st) {
        forall i | 0 <= i < n - 1 ensures !Wants(servers[i], st) {
          assert servers[i].container != servers[n - 1].container;
        }
      }
    }
  }

  ghost function Once(b: bool): nat {
    if b then 1 else 0
  }

  lemma {:induction false} MasterIsBuilt(c: string, id: nat, st: Step)
    requires OfServers(st)
    ensures Elements(MasterSteps(c, id))[st] == Once(Wants(Server(c, id, None), st))
  {
  }

  lemma {:induction false} SlaveIsBuilt(c: string, source: string, id: nat, st: Step)
    requires OfServers(st)
    ensures Elements(SlaveSteps(c, source, id))[st] == Once(Wants(Server(c, id, Some(source)), st))
  {
  }

  lemma {:induction false} NothingElseInside(c: string, source: string, id: nat, st: Step)
    requires !OfServers(st)
    ensures Elements(MasterSteps(c, id))[st] == Elements(SlaveSteps(c, source, id))[st] == 0
  {
  }

  ghost function SlaveServers(masterC: string, slaves: seq<SlaveSpec>): seq<Server> {
    seq(|slaves|, i requires 0 <= i < |slaves| => Server(slaves[i].container, slaves[i].serverId, Some(masterC)))
  }

  lemma {:induction false} SlavesAreBuilt(masterC: string, slaves: seq<SlaveSpec>, n: nat, st: Step)
    requires n <= |slaves|
    ensures OfServers(st) ==> AllSlaveSteps(masterC, slaves, n)[st] == Wanting(SlaveServers(masterC, slaves), n, st)
    ensures !OfServers(st) ==> AllSlaveSteps(masterC, slaves, n)[st] == 0
    decreases n
  {
    hide SlaveSteps, Wants, Elements;
    if n > 0 {
      SlavesAreBuilt(masterC, slaves, n - 1, st);
      if OfServers(st) {
        SlaveIsBuilt(slaves[n - 1].container, masterC, slaves[n - 1].serverId, st);
      } else {
        NothingElseInside(slaves[n - 1].container, masterC, slaves[n - 1].serverId, st);
      }
    }
  }

  lemma {:induction false} WantedByThree(a: Server, b: Server, rest: seq<Server>, st: Step)
    requires |rest| <= 1
    ensures var all := [a, b] + rest;
      Wanting(all, |all|, st) ==
        Once(Wants(a, st)) + Once(Wants(b, st)) + if rest == [] then 0 else Once(Wants(rest[0], st))
  {
    hide Wants;
    var all := [a, b] + rest;
    assert Wanting(all, 2, st) == Wanting(all, 1, st) + Once(Wants(b, st));
    assert Wanting(all, 1, st) == Wanting(all, 0, st) + Once(Wants(a, st));
  }

  lemma {:induction false} GroupIsBuilt(g: Group, st: Step)
    ensures OfServers(st) ==> GroupSteps(g)[st] == Wanting(GroupServers(g), |GroupServers(g)|, st)
    ensures !OfServers(st) ==> GroupSteps(g)[st] == 0
  {
    hide MasterSteps, SlaveSteps, Wants, Wanting, Elements, Once;
    if OfServers(st) {
      var master, read := Server(g.masterC, g.masterSid, None), Server(g.readC, g.masterSid + 1, Some(g.masterC));
      var rest := match g.offlineC case None => [] case Some(c) => [Server(c, g.masterSid + 2, Some(g.masterC))];
      assert GroupServers(g) == [master, read] + rest;
      WantedByThree(master, read, rest, st);
      MasterIsBuilt(g.masterC, g.masterSid, st);
      SlaveIsBuilt(g.readC, g.masterC, g.masterSid + 1, st);
      match g.offlineC {
        case None =>
        case Some(c) =>
          SlaveIsBuilt(c, g.masterC, g.masterSid + 2, st);
          assert rest[0] == Server(c, g.masterSid + 2, Some(g.masterC));
      }
    } else {
      NothingElseInside(g.masterC, "", g.masterSid, st);
      NothingElseInside(g.readC, g.masterC, g.masterSid + 1, st);
      if g.offlineC.Some? {
        NothingElseInside(g.offlineC.value, g.masterC, g.masterSid + 2, st);
      }
    }
  }

  lemma {:induction false} GroupsAreBuilt(groups: seq<Group>, n: nat, st: Step)
    requires n <= |groups|
    ensures OfServers(st) ==> GroupsSteps(groups, n)[st] == Wanting(AllServers(groups, n), |AllServers(groups, n)|, st)
    ensures !OfServers(st) ==> GroupsSteps(groups, n)[st] == 0
    decreases n
  {
    hide GroupSteps, GroupServers, Wants;
    if n > 0 {
      GroupsAreBuilt(groups, n - 1, st);
      GroupIsBuilt(groups[n - 1], st);
      WantingAppend(
        AllServers(groups, n - 1), GroupServers(groups[n - 1]), |GroupServers(groups[n - 1])|, st);
    }
  }

  lemma {:induction false} ProxiesAreBuilt(proxies: seq<string>, n: nat, st: Step)
    requires n <= |proxies|
    ensures ProxySteps(proxies, n)[st] ==
      if st.DockerRun? && st.serverId == None then multiset(proxies[..n])[st.container] else 0
    decreases n
  {
    if n > 0 {
      ProxiesAreBuilt(proxies, n - 1, st);
      assert proxies[..n] == proxies[..n - 1] + [proxies[n - 1]];
      assert ProxySteps(proxies, n)[st] ==
        ProxySteps(proxies, n - 1)[st] + if st == DockerRun(proxies[n - 1], None) then 1 else 0;
    }
  }

  lemma {:induction false} VerifyBuildsNothing(groups: seq<Group>, n: nat, st: Step)
    requires n <= |groups| && !st.VerifyReplication?
    ensures VerifyGroups(groups, n)[st] == 0
    decreases n
  {
    if n > 0 {
      VerifyBuildsNothing(groups, n - 1, st);
    }
  }

  lemma {:induction false} SingleBuilds(
      name: string, network: string, masterC: string, slaves: seq<SlaveSpec>, proxies: seq<string>, masterSid: nat,
      nodes: Plan)
    requires StepsOf(nodes) ==
      multiset{NetworkCreate(network)} + Elements(MasterSteps(masterC, masterSid)) + StepsOfSlaves(masterC, slaves)
      + multiset{WriteHostFile(ConfPath(name))} + ProxySteps(proxies, |proxies|) + multiset{EnsureLvs(name)}
      + Elements(VerifySteps(name, masterC, slaves))
    requires forall n :: n in nodes ==> InOrder(n.steps)
    ensures Builds(nodes, [Server(masterC, masterSid, None)] + SlaveServers(masterC, slaves), proxies)
  {
    hide InOrder, MasterSteps, StepsOf, SlaveServers, AllSlaveSteps, StepsOfSlaves, ProxySteps, ConfPath, Wants;
    hide Wanting, VerifySteps, Elements, Once;
    var servers := [Server(masterC, masterSid, None)] + SlaveServers(masterC, slaves);
    assert proxies[..|proxies|] == proxies;
    LeadingServer(Server(masterC, masterSid, None), masterC, slaves, WaitMysql(""));
    forall st: Step | OfServers(st) ensures StepsOf(nodes)[st] == Wanting(servers, |servers|, st) {
      ElsewhereNothing(name, network, masterC, slaves, st);
      SlavesAreBuilt(masterC, slaves, |slaves|, st);
      ProxiesAreBuilt(proxies, |proxies|, st);
      MasterIsBuilt(masterC, masterSid, st);
      LeadingServer(Server(masterC, masterSid, None), masterC, slaves, st);
      WholeSlaves(masterC, slaves);
    }
    forall c ensures StepsOf(nodes)[DockerRun(c, None)] == multiset(proxies)[c] {
      var st := DockerRun(c, None);
      ElsewhereNothing(name, network, masterC, slaves, st);
      SlavesAreBuilt(masterC, slaves, |slaves|, st);
      ProxiesAreBuilt(proxies, |proxies|, st);
      NothingElseInside(masterC, "", masterSid, st);
      WholeSlaves(masterC, slaves);
    }
  }

  lemma {:induction false} ElsewhereNothing(
      name: string, network: string, masterC: string, slaves: seq<SlaveSpec>, st: Step)
    requires OfServers(st) || st.DockerRun?
    ensures multiset{NetworkCreate(network)}[st] == multiset{WriteHostFile(ConfPath(name))}[st] == 0
    ensures multiset{EnsureLvs(name)}[st] == Elements(VerifySteps(name, masterC, slaves))[st] == 0
    ensures multiset{UpdateInstanceStatus(name, "running")}[st] == 0
  {
  }

  lemma {:induction false} LeadingServer(m: Server, masterC: string, slaves: seq<SlaveSpec>, st: Step)
    ensures var rest := SlaveServers(masterC, slaves);
      |rest| == |slaves| && Wanting([m] + rest, 1 + |slaves|, st) == Once(Wants(m, st)) + Wanting(rest, |slaves|, st)
  {
    hide Wants;
    WantingAppend([m], SlaveServers(masterC, slaves), |slaves|, st);
    assert Wanting([m], 1, st) == Wanting([m], 0, st) + Once(Wants(m, st));
  }

  lemma {:induction false} MultiBuilds(
      name: string, network: string, groups: seq<Group>, proxies: seq<string>, nodes: Plan)
    requires StepsOf(nodes) ==
      multiset{NetworkCreate(network)} + StepsOfGroups(groups) + multiset{WriteHostFile(ConfPath(name))}
      + ProxySteps(proxies, |proxies|) + multiset{EnsureLvs(name)} + VerifyGroups(groups, |groups|)
      + multiset{UpdateInstanceStatus(name, "running")}
    requires forall n :: n in nodes ==> InOrder(n.steps)
    ensures Builds(nodes, AllServers(groups, |groups|), proxies)
  {
    hide InOrder, StepsOf, GroupsSteps, AllServers, ProxySteps, ConfPath, Wants, Wanting, VerifyGroups, Once;
    var servers := AllServers(groups, |groups|);
    assert proxies[..|proxies|] == proxies;
    forall st: Step | OfServers(st) || (st.DockerRun? && st.serverId == None)
      ensures OfServers(st) ==> StepsOf(nodes)[st] == Wanting(servers, |servers|, st)
      ensures st.DockerRun? && st.serverId == None ==> StepsOf(nodes)[st] == multiset(proxies)[st.container]
    {
      GroupsAreBuilt(groups, |groups|, st);
      ProxiesAreBuilt(proxies, |proxies|, st);
      VerifyBuildsNothing(groups, |groups|, st);
      ElsewhereNothing(name, network, "", [], st);
    }
  }

  // ----- What a plan verifies -----

  /** The containers of those among the first `n` servers that follow `c`. */
  ghost function Followers(servers: seq<Server>, n: nat, c: string): seq<string>
    requires n <= |servers|
    decreases n
  {
    if n == 0 then []
    else
      Followers(servers, n - 1, c) + if servers[n - 1].source == Some(c) then [servers[n - 1].container] else []
  }

  ghost predicate LedBy(servers: seq<Server>, c: string) {
    exists i :: 0 <= i < |servers| && servers[i].container == c && servers[i].source == None
  }

  /** Every master with slaves is verified once, against all that follow it and no others. */
  ghost predicate Verifies(nodes: Plan, servers: seq<Server>) {
    forall c, slaves :: StepsOf(nodes)[VerifyReplication(c, slaves)] ==
      Once(slaves != [] && LedBy(servers, c) && slaves == Followers(servers, |servers|, c))
  }

  lemma {:induction false} FollowersAppend(a: seq<Server>, b: seq<Server>, n: nat, c: string)
    requires n <= |b|
    ensures Followers(a + b, |a| + n, c) == Followers(a, |a|, c) + Followers(b, n, c)
    decreases n
  {
    if n == 0 {
      FollowersPrefix(a, b, |a|, c);
    } else {
      FollowersAppend(a, b, n - 1, c);
    }
  }

  lemma {:induction false} FollowersPrefix(a: seq<Server>, b: seq<Server>, n: nat, c: string)
    requires n <= |a|
    ensures Followers(a + b, n, c) == Followers(a, n, c)
    decreases n
  {
    if n > 0 {
      FollowersPrefix(a, b, n - 1, c);
    }
  }

  lemma {:induction false} SlavesFollow(masterC: string, slaves: seq<SlaveSpec>, n: nat, c: string)
    requires n <= |slaves|
    ensures Followers(SlaveServers(masterC, slaves), n, c) ==
      if c == masterC then SlaveContainers(slaves)[..n] else []
    decreases n
  {
    if n > 0 {
      SlavesFollow(masterC, slaves, n - 1, c);
      assert SlaveContainers(slaves)[..n] == SlaveContainers(slaves)[..n - 1] + [slaves[n - 1].container];
    }
  }

  lemma {:induction false} AllFollow(m: Server, masterC: string, slaves: seq<SlaveSpec>, c: string)
    requires m.container == masterC && m.source == None
    ensures var servers := [m] + SlaveServers(masterC, slaves);
      && Followers(servers, |servers|, c) == (if c == masterC then SlaveContainers(slaves) else [])
      && (LedBy(servers, c) <==> c == masterC)
  {
    hide Followers, SlaveServers, LedBy, SlaveContainers;
    var rest := SlaveServers(masterC, slaves);
    FollowersAppend([m], rest, |rest|, c);
    SlavesFollow(masterC, slaves, |slaves|, c);
    FirstLeads(m, masterC, slaves, c);
    assert SlaveContainers(slaves)[..|slaves|] == SlaveContainers(slaves);
    assert [] + Followers(rest, |rest|, c) == Followers(rest, |rest|, c);
  }

  lemma {:induction false} FirstLeads(m: Server, masterC: string, slaves: seq<SlaveSpec>, c: string)
    requires m.container == masterC && m.source == None
    ensures Followers([m], 1, c) == [] && |SlaveServers(masterC, slaves)| == |SlaveContainers(slaves)| == |slaves|
    ensures LedBy([m] + SlaveServers(masterC, slaves), c) <==> c == masterC
  {
    var servers := [m] + SlaveServers(masterC, slaves);
    assert servers[0] == m;
    assert Followers([m], 0, c) == [];
  }

  lemma {:induction false} SingleVerifies(
      name: string, network: string, masterC: string, slaves: seq<SlaveSpec>, proxies: seq<string>, masterSid: nat,
      nodes: Plan)
    requires StepsOf(nodes) ==
      multiset{NetworkCreate(network)} + Elements(MasterSteps(masterC, masterSid)) + StepsOfSlaves(masterC, slaves)
      + multiset{WriteHostFile(ConfPath(name))} + ProxySteps(proxies, |proxies|) + multiset{EnsureLvs(name)}
      + Elements(VerifySteps(name, masterC, slaves))
    ensures Verifies(nodes, [Server(masterC, masterSid, None)] + SlaveServers(masterC, slaves))
  {
    hide MasterSteps, StepsOf, SlaveServers, AllSlaveSteps, StepsOfSlaves, ProxySteps, ConfPath, VerifySteps, Elements;
    hide Followers, LedBy, SlaveContainers;
    forall c, vs
      ensures var servers := [Server(masterC, masterSid, None)] + SlaveServers(masterC, slaves);
        StepsOf(nodes)[VerifyReplication(c, vs)] ==
        Once(vs != [] && LedBy(servers, c) && vs == Followers(servers, |servers|, c))
    {
      var st := VerifyReplication(c, vs);
      SlavesAreBuilt(masterC, slaves, |slaves|, st);
      WholeSlaves(masterC, slaves);
      ProxiesAreBuilt(proxies, |proxies|, st);
      NothingElseInside(masterC, "", masterSid, st);
      VerifyStep(name, masterC, slaves, c, vs);
      AllFollow(Server(masterC, masterSid, None), masterC, slaves, c);
    }
  }

  lemma {:induction false} VerifyStep(name: string, masterC: string, slaves: seq<SlaveSpec>, c: string, vs: seq<string>)
    ensures Elements(VerifySteps(name, masterC, slaves))[VerifyReplication(c, vs)] ==
      Once(slaves != [] && c == masterC && vs == SlaveContainers(slaves))
    ensures SlaveContainers(slaves) == [] <==> slaves == []
  {
    if slaves != [] {
      assert VerifySteps(name, masterC, slaves)
        == [VerifyReplication(masterC, SlaveContainers(slaves)), UpdateInstanceStatus(name, "running")];
    }
  }

  /** The shard among the first `n` that `c` leads. */
  ghost function ShardLed(groups: seq<Group>, n: nat, c: string): Option<nat>
    requires n <= |groups|
    ensures ShardLed(groups, n, c).Some? ==> ShardLed(groups, n, c).value < n
    decreases n
  {
    if n == 0 then None
    else if groups[n - 1].masterC == c then Some(n - 1)
    else ShardLed(groups, n - 1, c)
  }

  ghost predicate MastersDiffer(groups: seq<Group>) {
    forall i, j :: 0 <= i < j < |groups| ==> groups[i].masterC != groups[j].masterC
  }

  ghost function SlavesOf(g: Group): seq<string> {
    if g.offlineC.Some? then [g.readC, g.offlineC.value] else [g.readC]
  }

  lemma {:induction false} LedElsewhere(groups: seq<Group>, n: nat, m: nat)
    requires n <= m < |groups| && MastersDiffer(groups)
    ensures ShardLed(groups, n, groups[m].masterC) == None
    decreases n
  {
    if n > 0 {
      LedElsewhere(groups, n - 1, m);
    }
  }

  lemma {:induction false} GroupVerified(groups: seq<Group>, n: nat, c: string, vs: seq<string>)
    requires n <= |groups| && MastersDiffer(groups)
    ensures VerifyGroups(groups, n)[VerifyReplication(c, vs)] ==
      match ShardLed(groups, n, c) case None => 0 case Some(k) => Once(vs == SlavesOf(groups[k]))
    decreases n
  {
    if n > 0 {
      GroupVerified(groups, n - 1, c, vs);
      LedElsewhere(groups, n - 1, n - 1);
      assert VerifyGroup(groups[n - 1]) == VerifyReplication(groups[n - 1].masterC, SlavesOf(groups[n - 1]));
    }
  }

  lemma {:induction false} GroupFollowers(g: Group, c: string)
    ensures Followers(GroupServers(g), |GroupServers(g)|, c) == if c == g.masterC then SlavesOf(g) else []
  {
    var s := GroupServers(g);
    assert Followers(s, 0, c) == [];
    assert Followers(s, 1, c) == [];
    assert Followers(s, 2, c) == if c == g.masterC then [g.readC] else [];
  }

  lemma {:induction false} ShardFollowers(groups: seq<Group>, n: nat, c: string)
    requires n <= |groups| && MastersDiffer(groups)
    ensures var servers := AllServers(groups, n);
      && Followers(servers, |servers|, c) ==
           (match ShardLed(groups, n, c) case None => [] case Some(k) => SlavesOf(groups[k]))
      && (LedBy(servers, c) <==> ShardLed(groups, n, c).Some?)
    decreases n
  {
    hide GroupServers, Followers, SlavesOf, LedBy, AllServers, MastersDiffer;
    LastShard(groups, n);
    if n == 0 {
      NobodyFollows(c);
    } else {
      ShardFollowers(groups, n - 1, c);
      LedElsewhere(groups, n - 1, n - 1);
      var a, b := AllServers(groups, n - 1), GroupServers(groups[n - 1]);
      FollowersAppend(a, b, |b|, c);
      GroupFollowers(groups[n - 1], c);
      LedAppend(a, groups[n - 1], c);
    }
  }

  lemma {:induction false} LastShard(groups: seq<Group>, n: nat)
    requires n <= |groups|
    ensures AllServers(groups, n) == if n == 0 then [] else AllServers(groups, n - 1) + GroupServers(groups[n - 1])
  {
  }

  lemma {:induction false} NobodyFollows(c: string)
    ensures Followers([], 0, c) == [] && !LedBy([], c)
  {
  }

  lemma {:induction false} LedAppend(a: seq<Server>, g: Group, c: string)
    ensures LedBy(a + GroupServers(g), c) <==> LedBy(a, c) || c == g.masterC
  {
    var all := a + GroupServers(g);
    assert all[|a|] == Server(g.masterC, g.masterSid, None);
    if LedBy(a, c) {
      var i :| 0 <= i < |a| && a[i].container == c && a[i].source == None;
      assert all[i] == a[i];
    }
  }

  lemma {:induction false} MultiVerifies(
      name: string, network: string, groups: seq<Group>, proxies: seq<string>, nodes: Plan)
    requires StepsOf(nodes) ==
      multiset{NetworkCreate(network)} + StepsOfGroups(groups) + multiset{WriteHostFile(ConfPath(name))}
      + ProxySteps(proxies, |proxies|) + multiset{EnsureLvs(name)} + VerifyGroups(groups, |groups|)
      + multiset{UpdateInstanceStatus(name, "running")}
    requires MastersDiffer(groups)
    ensures Verifies(nodes, AllServers(groups, |groups|))
  {
    hide StepsOf, GroupsSteps, AllServers, ProxySteps, ConfPath, VerifyGroups, Followers, LedBy;
    forall c, vs
      ensures var servers := AllServers(groups, |groups|);
        StepsOf(nodes)[VerifyReplication(c, vs)] ==
        Once(vs != [] && LedBy(servers, c) && vs == Followers(servers, |servers|, c))
    {
      var st := VerifyReplication(c, vs);
      GroupsAreBuilt(groups, |groups|, st);
      ProxiesAreBuilt(proxies, |proxies|, st);
      GroupVerified(groups, |groups|, c, vs);
      ShardFollowers(groups, |groups|, c);
    }
  }

  /** Registering DTS jobs builds no server and verifies none. */
  lemma {:induction false} DtsKeepsBuilds(nodes: Plan, servers: seq<Server>, proxies: seq<string>, n: TaskNode)
    requires Builds(nodes, servers, proxies) && InOrder(n.steps)
    requires forall st :: st in n.steps ==> st.DtsRun?
    ensures Builds(nodes + [n], servers, proxies)
    ensures Verifies(nodes, servers) ==> Verifies(nodes + [n], servers)
  {
    hide InOrder, StepsOf, Wants, Wanting, Followers, LedBy;
    StepsPushed(nodes, n);
    forall st: Step | !st.DtsRun? ensures StepsOf(nodes + [n])[st] == StepsOf(nodes)[st] {
      assert st !in n.steps;
    }
  }

  // ----- The single-shard plan -----

  function SlaveSteps(container: string, source: string, serverId: nat): seq<Step> {
    [DockerRun(container, Some(serverId)), WaitMysql(container), ExecSql(container, FollowSource(source))]
  }

  function MasterSteps(container: string, serverId: nat): seq<Step> {
    [DockerRun(container, Some(serverId)), WaitMysql(container), ExecSql(container, CreateReplicationUser)]
  }

  ghost function SlaveIds(n: nat): set<NodeId> { set i | 0 <= i < n :: SlaveId(i) }

  ghost function ProxyIds(n: nat): set<NodeId> { set i | 0 <= i < n :: ProxyId(i) }

  method PushNetwork(name: string, network: string) returns (out: Plan, ghost level: map<NodeId, nat>)
    ensures Under(name, out, level, 1) && Ids(out) == {"net"} && level == map["net" := 0]
    ensures StepsOf(out) == multiset{NetworkCreate(network)} && Feeds(out, {}, {"net"})
  {
    NothingFeeds();
    hide InOrder, IsStart;
    hide Under, Levels, UniqueIds, Feeds;
    assert Under(name, [], map[], 1) by {
      EmptyUnder(name);
    }
    var n := TaskNode("net", [], 1, [NetworkCreate(network)]);
    OneStep(NetworkCreate(network));
    PushedUnder(name, [], map[], 1, n, 0, "");
    PushedFeeds([], {}, {}, n, {"net"});
    out, level := [n], map["net" := 0];
    assert [] + [n] == out && map[][n.id := 0] == level;
  }

  lemma {:induction false} EmptyUnder(name: string)
    ensures Under(name, [], map[], 1)
  {
  }

  ghost function AllSlaveSteps(masterC: string, slaves: seq<SlaveSpec>, n: nat): multiset<Step>
    requires n <= |slaves|
    decreases n
  {
    if n == 0 then multiset{}
    else
      AllSlaveSteps(masterC, slaves, n - 1)
      + Elements(SlaveSteps(slaves[n - 1].container, masterC, slaves[n - 1].serverId))
  }

  /** The steps that build all slaves. */
  ghost function StepsOfSlaves(masterC: string, slaves: seq<SlaveSpec>): multiset<Step> {
    AllSlaveSteps(masterC, slaves, |slaves|)
  }

  lemma {:induction false} WholeSlaves(masterC: string, slaves: seq<SlaveSpec>)
    ensures AllSlaveSteps(masterC, slaves, |slaves|) == StepsOfSlaves(masterC, slaves)
  {
  }

  ghost function ProxySteps(proxies: seq<string>, n: nat): multiset<Step>
    requires n <= |proxies|
    decreases n
  {
    if n == 0 then multiset{} else ProxySteps(proxies, n - 1) + multiset{DockerRun(proxies[n - 1], None)}
  }

  method PushMaster(name: string, network: string, masterC: string, masterSid: nat)
    returns (out: Plan, ghost level: map<NodeId, nat>)
    ensures Under(name, out, level, 2) && Ids(out) == {"net", "master"} && "master" in level && level["master"] == 1
    ensures StepsOf(out) == multiset{NetworkCreate(network)} + Elements(MasterSteps(masterC, masterSid))
    ensures Feeds(out, {}, {"master"})
  {
    hide InOrder, IsStart;
    hide Under, Levels, UniqueIds, StepsOf, Ids, Feeds;
    out, level := PushNetwork(name, network);
    var n := TaskNode("master", ["net"], 1, MasterSteps(masterC, masterSid));
    NoStatusSteps(name, masterC, "", masterSid);
    PushedUnder(name, out, level, 1, n, 1, "net");
    PushedFeeds(out, {}, {"net"}, n, {"master"});
    out, level := out + [n], level["master" := 1];
  }

  ghost function Listed(ids: seq<NodeId>): set<NodeId> {
    set id | id in ids
  }

  lemma {:induction false} ListedMore(ids: seq<NodeId>, id: NodeId)
    ensures Listed(ids + [id]) == Listed(ids) + {id}
  {
  }

  lemma {:induction false} NoSlaves(masterC: string, slaves: seq<SlaveSpec>)
    ensures SlaveIds(0) == {} == Listed([]) && AllSlaveSteps(masterC, slaves, 0) == multiset{}
  {
  }

  lemma {:induction false} NewSlave(i: nat)
    ensures SlaveId(i) !in SlaveIds(i) && SlaveIds(i + 1) == SlaveIds(i) + {SlaveId(i)}
    ensures |SlaveId(i)| > 1 && SlaveId(i)[0] == 's' && SlaveId(i)[1] == 'l'
  {
    forall j | 0 <= j < i ensures SlaveId(j) != SlaveId(i) {
      SlaveIdInjective(i, j);
    }
  }

  lemma {:induction false} NextSlaveSteps(masterC: string, slaves: seq<SlaveSpec>, i: nat)
    requires i < |slaves|
    ensures AllSlaveSteps(masterC, slaves, i + 1) == AllSlaveSteps(masterC, slaves, i)
      + Elements(SlaveSteps(slaves[i].container, masterC, slaves[i].serverId))
  {
  }

  method PushSlaves(name: string, nodes: Plan, ghost level0: map<NodeId, nat>, masterC: string, slaves: seq<SlaveSpec>)
    returns (out: Plan, ghost level: map<NodeId, nat>, slaveIds: seq<NodeId>)
    requires Under(name, nodes, level0, 2) && "master" in level0 && level0["master"] == 1
    requires Ids(nodes) == {"net", "master"} && Feeds(nodes, {}, {"master"})
    ensures Under(name, out, level, if slaves == [] then 2 else 3)
    ensures Ids(out) == {"net", "master"} + SlaveIds(|slaves|)
    ensures "master" in level && level["master"] == 1
    ensures |slaveIds| == |slaves|
    ensures forall j :: 0 <= j < |slaveIds| ==> slaveIds[j] in level && level[slaveIds[j]] == 2
    ensures StepsOf(out) == StepsOf(nodes) + StepsOfSlaves(masterC, slaves)
    ensures Feeds(out, {}, {"master"} + Listed(slaveIds)) && Listed(slaveIds) == SlaveIds(|slaves|)
    ensures slaves != [] ==> slaveIds[0] == SlaveId(0)
  {
    hide InOrder, IsStart;
    hide Under, Levels, UniqueIds, StepsOf, StepsOfSlaves, SlaveSteps, Elements, Feeds, SlaveIds, SlaveId, Listed;
    hide AllSlaveSteps, Ids;
    WholeSlaves(masterC, slaves);
    NoSlaves(masterC, slaves);
    out, level, slaveIds := nodes, level0, [];
    var i := 0;
    assert {"master"} + Listed(slaveIds) == {"master"} && StepsOf(nodes) + multiset{} == StepsOf(nodes);
    while i < |slaves|
      invariant 0 <= i <= |slaves| && |slaveIds| == i
      invariant Under(name, out, level, if i == 0 then 2 else 3)
      invariant Ids(out) == {"net", "master"} + SlaveIds(i)
      invariant "master" in level && level["master"] == 1
      invariant forall j :: 0 <= j < i ==> slaveIds[j] in level && level[slaveIds[j]] == 2
      invariant StepsOf(out) == StepsOf(nodes) + AllSlaveSteps(masterC, slaves, i)
      invariant Feeds(out, {}, {"master"} + Listed(slaveIds)) && Listed(slaveIds) == SlaveIds(i)
      invariant i > 0 ==> slaveIds[0] == SlaveId(0)
    {
      var id := SlaveId(i);
      NewSlave(i);
      ghost var open := {"master"} + Listed(slaveIds);
      ListedMore(slaveIds, id);
      slaveIds := slaveIds + [id];
      var n := TaskNode(id, ["master"], 1, SlaveSteps(slaves[i].container, masterC, slaves[i].serverId));
      NoStatusSteps(name, slaves[i].container, masterC, slaves[i].serverId);
      PushedUnder(name, out, level, if i == 0 then 2 else 3, n, 2, "master");
      PushedFeeds(out, {}, open, n, {"master"} + Listed(slaveIds));
      NextSlaveSteps(masterC, slaves, i);
      out, level := out + [n], level[id := 2];
      i := i + 1;
    }
  }

  lemma {:induction false} NextProxy(proxies: seq<string>, i: nat)
    requires i < |proxies|
    ensures ProxyIds(i + 1) == ProxyIds(i) + {ProxyId(i)} && ProxyId(i) !in ProxyIds(i)
    ensures ProxyId(i) in ProxyIds(|proxies|)
    ensures ProxySteps(proxies, i + 1) == ProxySteps(proxies, i) + multiset{DockerRun(proxies[i], None)}
    ensures |ProxyId(i)| > 1 && ProxyId(i)[1] == 'r' && ProxyId(i) != "proxy_conf"
    ensures ProxyId(i) in SideProxies(proxies) <==> i + 1 < |proxies|
  {
    ProxyIdInjective(i, i);
    forall j | 0 <= j < i ensures ProxyId(j) != ProxyId(i) {
      ProxyIdInjective(i, j);
    }
    assert ProxyId(i) in SideProxies(proxies) ==> ProxyId(i) in ProxyIds(i) || i + 1 < |proxies|;
  }

  /** Nothing waits for these: the access layer waits for the last proxy only. */
  ghost function SideProxies(proxies: seq<string>): set<NodeId> {
    set i | 0 <= i < |proxies| - 1 :: ProxyId(i)
  }

  lemma {:induction false} SideIsPart(proxies: seq<string>)
    ensures SideProxies(proxies) <= ProxyIds(|proxies|) && "proxy_conf" !in SideProxies(proxies)
    ensures forall id :: id in SideProxies(proxies) ==> id != "" && id[0] == 'p'
  {
    forall i | 0 <= i < |proxies| ensures ProxyId(i) != "proxy_conf" && ProxyId(i)[0] == 'p' {
      ProxyIdInjective(i, i);
    }
  }

  /** What is left to be waited for after `i` proxies. */
  ghost function OpenAt(rest: set<NodeId>, proxies: seq<string>, i: nat): set<NodeId> {
    rest + {if 0 < i == |proxies| then ProxyId(i - 1) else "proxy_conf"}
  }

  /** All proxies made so far wait for the configuration alone. */
  ghost predicate WaitForConf(nodes: Plan, ids: set<NodeId>) {
    forall n :: n in nodes && n.id in ids ==> n.deps == ["proxy_conf"]
  }

  lemma {:induction false} NoProxies(nodes: Plan, proxies: seq<string>, rest: set<NodeId>)
    ensures ProxyIds(0) == {} && ProxySteps(proxies, 0) == multiset{}
    ensures WaitForConf(nodes, ProxyIds(0)) && OpenAt(rest, proxies, 0) == rest + {"proxy_conf"}
  {
  }

  lemma {:induction false} LastProxy(proxies: seq<string>, rest: set<NodeId>)
    requires |proxies| > 0
    ensures var last := ProxyId(|proxies| - 1);
      last in ProxyIds(|proxies|) && last !in SideProxies(proxies) && OpenAt(rest, proxies, |proxies|) == rest + {last}
  {
    hide ProxyId, SideProxies;
    NextProxy(proxies, |proxies| - 1);
  }

  lemma {:induction false} ProxiesAreTwins(nodes: Plan, proxies: seq<string>, last: NodeId)
    requires WaitForConf(nodes, ProxyIds(|proxies|)) && ProxyIds(|proxies|) <= Ids(nodes) && last in ProxyIds(|proxies|)
    requires last !in SideProxies(proxies)
    ensures Twins(nodes, SideProxies(proxies))
  {
    SideIsPart(proxies);
    var b :| b in nodes && b.id == last;
    assert last[0] == 'p' by {
      ProxyIdsMark(last, |proxies|);
    }
    forall n | n in nodes && n.id in SideProxies(proxies)
      ensures !IsDts(n) && HasTwin(nodes, SideProxies(proxies), n)
    {
      assert n.id[0] == 'p';
      assert b.deps == n.deps && !IsDts(b);
    }
  }

  lemma {:induction false} ProxyIdsMark(id: NodeId, n: nat)
    requires id in ProxyIds(n)
    ensures id != "" && id[0] == 'p'
  {
  }

  /** The proxies all depend on their configuration; the access layer will depend on the last one. */
  method PushProxies(name: string, nodes: Plan, ghost level0: map<NodeId, nat>, ghost l: nat, proxies: seq<string>,
                     ghost rest: set<NodeId>)
    returns (out: Plan, ghost level: map<NodeId, nat>, last: NodeId)
    requires |proxies| > 0 && Under(name, nodes, level0, l + 1)
    requires "proxy_conf" in level0 && level0["proxy_conf"] == l
    requires Ids(nodes) !! ProxyIds(|proxies|) && Feeds(nodes, SideProxies(proxies), rest + {"proxy_conf"})
    ensures Under(name, out, level, l + 2) && Ids(out) == Ids(nodes) + ProxyIds(|proxies|)
    ensures last in level && level[last] == l + 1 && last !in SideProxies(proxies)
    ensures StepsOf(out) == StepsOf(nodes) + ProxySteps(proxies, |proxies|)
    ensures forall id :: id in level0 && id !in ProxyIds(|proxies|) ==> id in level && level[id] == level0[id]
    ensures Feeds(out, SideProxies(proxies), rest + {last}) && Twins(out, SideProxies(proxies))
  {
    hide InOrder, IsStart;
    hide Under, Levels, UniqueIds, Ids, StepsOf, ProxyIds, ProxySteps, ProxyId, SideProxies, Feeds, WaitForConf, OpenAt;
    out, level, last := nodes, level0, "proxy_conf";
    NoProxies(nodes, proxies, rest);
    var i := 0;
    while i < |proxies|
      invariant 0 <= i <= |proxies|
      invariant Under(name, out, level, if i == 0 then l + 1 else l + 2)
      invariant Ids(out) == Ids(nodes) + ProxyIds(i) && ProxyIds(i) <= ProxyIds(|proxies|)
      invariant "proxy_conf" in level && level["proxy_conf"] == l
      invariant forall id :: id in level0 && id !in ProxyIds(i) ==> id in level && level[id] == level0[id]
      invariant i > 0 ==> last in level && level[last] == l + 1
      invariant StepsOf(out) == StepsOf(nodes) + ProxySteps(proxies, i)
      invariant WaitForConf(out, ProxyIds(i))
      invariant i > 0 ==> last == ProxyId(i - 1)
      invariant Feeds(out, SideProxies(proxies), OpenAt(rest, proxies, i))
    {
      last := ProxyId(i);
      NextProxy(proxies, i);
      out, level := PushProxy(name, out, level, l, proxies, i, rest);
      i := i + 1;
    }
    LastProxy(proxies, rest);
    ProxiesAreTwins(out, proxies, last);
  }

  method PushProxy(name: string, nodes: Plan, ghost level0: map<NodeId, nat>, ghost l: nat, proxies: seq<string>,
                   i: nat, ghost rest: set<NodeId>)
    returns (out: Plan, ghost level: map<NodeId, nat>)
    requires i < |proxies| && Under(name, nodes, level0, if i == 0 then l + 1 else l + 2)
    requires "proxy_conf" in level0 && level0["proxy_conf"] == l && ProxyId(i) !in Ids(nodes)
    requires Feeds(nodes, SideProxies(proxies), OpenAt(rest, proxies, i)) && WaitForConf(nodes, ProxyIds(i))
    ensures Under(name, out, level, l + 2) && Ids(out) == Ids(nodes) + {ProxyId(i)}
    ensures level == level0[ProxyId(i) := l + 1]
    ensures StepsOf(out) == StepsOf(nodes) + multiset{DockerRun(proxies[i], None)}
    ensures WaitForConf(out, ProxyIds(i + 1))
    ensures Feeds(out, SideProxies(proxies), OpenAt(rest, proxies, i + 1))
  {
    hide InOrder, IsStart;
    hide Under, Levels, UniqueIds, Ids, StepsOf, ProxyIds, ProxySteps, ProxyId, SideProxies, Feeds, WaitForConf, OpenAt;
    NextProxy(proxies, i);
    var n := ProxyNode(proxies, i);
    ProxyFeeds(nodes, proxies, i, rest);
    OneStep(DockerRun(proxies[i], None));
    PushedUnder(name, nodes, level0, if i == 0 then l + 1 else l + 2, n, l + 1, "proxy_conf");
    out, level := nodes + [n], level0[n.id := l + 1];
  }

  function ProxyNode(proxies: seq<string>, i: nat): TaskNode
    requires i < |proxies|
  {
    TaskNode(ProxyId(i), ["proxy_conf"], 1, [DockerRun(proxies[i], None)])
  }

  lemma {:induction false} ProxyFeeds(nodes: Plan, proxies: seq<string>, i: nat, rest: set<NodeId>)
    requires i < |proxies| && ProxyId(i) !in Ids(nodes)
    requires Feeds(nodes, SideProxies(proxies), OpenAt(rest, proxies, i)) && WaitForConf(nodes, ProxyIds(i))
    ensures var out := nodes + [ProxyNode(proxies, i)];
      WaitForConf(out, ProxyIds(i + 1))
      && Feeds(out, SideProxies(proxies), OpenAt(rest, proxies, i + 1))
  {
    NextProxy(proxies, i);
    SideIsPart(proxies);
    hide ProxyIds, ProxyId, SideProxies, Feeds;
    var n := ProxyNode(proxies, i);
    PushedFeeds(nodes, SideProxies(proxies), OpenAt(rest, proxies, i), n, OpenAt(rest, proxies, i + 1));
    assert forall m :: m in nodes ==> m.id in Ids(nodes);
  }

  /** From the proxy configuration to the access layer. */
  method PushAccess(name: string, nodes: Plan, ghost level0: map<NodeId, nat>, ghost l: nat, conf: TaskNode,
                    ghost high: NodeId, proxies: seq<string>, ghost open: set<NodeId>, ghost rest: set<NodeId>)
    returns (out: Plan, ghost level: map<NodeId, nat>)
    requires |proxies| > 0 && l > 0 && Under(name, nodes, level0, l) && conf.id == "proxy_conf"
    requires Fits(Ids(nodes), level0, conf, l, high) && !SetsRunning(name, conf) && InOrder(conf.steps)
    requires Ids(nodes) !! ProxyIds(|proxies|) && "lvs" !in Ids(nodes)
    requires Feeds(nodes, {}, open) && forall id :: id in open ==> id in conf.deps || id in rest
    ensures Under(name, out, level, l + 3) && "lvs" in level && level["lvs"] == l + 2
    ensures Ids(out) == Ids(nodes) + {"proxy_conf"} + ProxyIds(|proxies|) + {"lvs"}
    ensures StepsOf(out) ==
      StepsOf(nodes) + Elements(conf.steps) + ProxySteps(proxies, |proxies|) + multiset{EnsureLvs(name)}
    ensures forall id :: id in level0 && id in Ids(nodes) ==> id in level && level[id] == level0[id]
    ensures Feeds(out, SideProxies(proxies), rest + {"lvs"}) && Twins(out, SideProxies(proxies))
  {
    hide InOrder, IsStart;
    hide Under, Levels, UniqueIds, Ids, StepsOf, Feeds, Twins, SideProxies, ProxyIds, ProxySteps, Elements;
    ProxyIdsAreNot(|proxies|);
    SideIsPart(proxies);
    SideIsFree(name, nodes, level0, l, proxies, open);
    OneStep(EnsureLvs(name));
    ghost var side := SideProxies(proxies);
    PushedUnder(name, nodes, level0, l, conf, l, high);
    PushedFeeds(nodes, side, open, conf, rest + {"proxy_conf"});
    ghost var level1 := level0["proxy_conf" := l];
    var last: NodeId;
    out, level, last := PushProxies(name, nodes + [conf], level1, l, proxies, rest);
    var n := TaskNode("lvs", [last], 2, [EnsureLvs(name)]);
    PushedUnder(name, out, level, l + 2, n, l + 2, last);
    PushedFeeds(out, side, rest + {last}, n, rest + {"lvs"});
    PushedTwins(out, side, n);
    out, level := out + [n], level["lvs" := l + 2];
  }

  lemma {:induction false} SideIsFree(
      name: string, nodes: Plan, level: map<NodeId, nat>, l: nat, proxies: seq<string>, open: set<NodeId>)
    requires Under(name, nodes, level, l) && Ids(nodes) !! ProxyIds(|proxies|) && Feeds(nodes, {}, open)
    ensures Feeds(nodes, SideProxies(proxies), open)
    ensures forall d :: d in level ==> d in Ids(nodes) && d !in SideProxies(proxies)
  {
    hide SideProxies, Feeds;
    SideIsPart(proxies);
    SideIsNew(nodes, level, SideProxies(proxies), open);
  }

  lemma {:induction false} ProxyIdsAreNot(n: nat)
    ensures "proxy_conf" !in ProxyIds(n) && "lvs" !in ProxyIds(n)
  {
    forall i | 0 <= i < n ensures ProxyId(i) != "proxy_conf" && ProxyId(i) != "lvs" {
      ProxyIdInjective(i, i);
      assert ProxyId(i)[0] == 'p';
    }
  }

  lemma {:induction false} SlaveIdsAreNot(n: nat, m: nat)
    ensures SlaveIds(n) !! ProxyIds(m) && SlaveIds(n) !! {"net", "master", "proxy_conf", "lvs", "verify"}
    ensures ProxyIds(m) !! {"net", "master", "lvs", "verify", "done"}
  {
    assert forall i :: 0 <= i < n ==> SlaveId(i)[0] == 's';
    assert forall i :: 0 <= i < m ==> ProxyId(i)[0] == 'p';
  }

  /** The network, the master and the slaves, and the configuration of the proxies, which waits for all
      of the servers. */
  method PushServers(name: string, network: string, masterC: string, slaves: seq<SlaveSpec>, masterSid: nat)
    returns (out: Plan, ghost level: map<NodeId, nat>, conf: TaskNode)
    ensures var l := if slaves == [] then 2 else 3;
      Under(name, out, level, l) && Fits(Ids(out), level, conf, l, if slaves == [] then "master" else SlaveId(0))
    ensures conf.id == "proxy_conf" && conf.steps == [WriteHostFile(ConfPath(name))]
    ensures Ids(out) == {"net", "master"} + SlaveIds(|slaves|)
    ensures StepsOf(out) ==
      multiset{NetworkCreate(network)} + Elements(MasterSteps(masterC, masterSid)) + StepsOfSlaves(masterC, slaves)
    ensures Feeds(out, {}, {"master"} + SlaveIds(|slaves|))
    ensures forall id :: id in {"master"} + SlaveIds(|slaves|) ==> id in conf.deps
  {
    hide InOrder, IsStart;
    hide Under, Levels, UniqueIds, SlaveIds, SlaveId, Ids, StepsOf, StepsOfSlaves, Feeds, Listed, ProxyIds;
    hide MasterSteps, SlaveSteps, ConfPath, Elements;
    SlaveIdsAreNot(|slaves|, 0);
    out, level := PushMaster(name, network, masterC, masterSid);
    var slaveIds;
    out, level, slaveIds := PushSlaves(name, out, level, masterC, slaves);
    conf := TaskNode("proxy_conf", ["master"] + slaveIds, 0, [WriteHostFile(ConfPath(name))]);
    assert forall d :: d in conf.deps <==> d == "master" || d in slaveIds;
    ListedAre(slaveIds);
    assert slaves != [] ==> slaveIds[0] == SlaveId(0);
  }

  method CreateNodes2(name: string, network: string, masterC: string, slaves: seq<SlaveSpec>,
                      proxies: seq<string>, masterSid: nat) returns (out: Plan, ghost level: map<NodeId, nat>)
    requires |proxies| > 0
    ensures Creates(name, out, level)
    ensures Ids(out) == {"net", "master", "proxy_conf", "lvs", "verify"} + SlaveIds(|slaves|) + ProxyIds(|proxies|)
    ensures |out| > 0 && SetsRunning(name, out[|out| - 1]) && NoDts(out)
    ensures StepsOf(out) ==
      multiset{NetworkCreate(network)} + Elements(MasterSteps(masterC, masterSid)) + StepsOfSlaves(masterC, slaves)
      + multiset{WriteHostFile(ConfPath(name))} + ProxySteps(proxies, |proxies|) + multiset{EnsureLvs(name)}
      + Elements(VerifySteps(name, masterC, slaves))
    ensures Closes(out, out[|out| - 1], SideProxies(proxies)) && out[|out| - 1].deps == ["lvs"]
    ensures Builds(out, [Server(masterC, masterSid, None)] + SlaveServers(masterC, slaves), proxies)
    ensures Verifies(out, [Server(masterC, masterSid, None)] + SlaveServers(masterC, slaves))
  {
    hide Builds, SlaveServers, Verifies;
    hide InOrder, IsStart;
    hide Under, Levels, UniqueIds, Creates, SlaveIds, ProxyIds, Ids, StepsOf, StepsOfSlaves, ProxySteps, SideProxies;
    hide MasterSteps, SlaveSteps, VerifySteps, ConfPath, Elements, Feeds, Twins, Closes, Fits, SlaveId;
    SlaveIdsAreNot(|slaves|, |proxies|);
    SideIsPart(proxies);
    var conf;
    out, level, conf := PushServers(name, network, masterC, slaves, masterSid);
    ghost var l := if slaves == [] then 2 else 3;
    ghost var high := if slaves == [] then "master" else SlaveId(0);
    OneStep(WriteHostFile(ConfPath(name)));
    out, level := PushAccess(name, out, level, l, conf, high, proxies, {"master"} + SlaveIds(|slaves|), {});
    out, level := PushVerify(name, out, level, l + 3, VerifySteps(name, masterC, slaves), SideProxies(proxies));
    CreatesInOrder(name, out, level);
    SingleBuilds(name, network, masterC, slaves, proxies, masterSid, out);
    SingleVerifies(name, network, masterC, slaves, proxies, masterSid, out);
  }

  lemma {:induction false} CreatesInOrder(name: string, nodes: Plan, level: map<NodeId, nat>)
    requires Creates(name, nodes, level)
    ensures forall n :: n in nodes ==> InOrder(n.steps)
  {
  }

  lemma {:induction false} OneStep(st: Step)
    ensures Elements([st]) == multiset{st}
    ensures !st.ExecSql? ==> InOrder([st])
  {
  }

  function ConfPath(name: string): string { "logs/rds/" + name + "/newproxy.conf" }

  function SlaveContainers(slaves: seq<SlaveSpec>): seq<string> {
    seq(|slaves|, j requires 0 <= j < |slaves| => slaves[j].container)
  }

  /** Without slaves there is no replication to verify. */
  function VerifySteps(name: string, masterC: string, slaves: seq<SlaveSpec>): (steps: seq<Step>)
    ensures UpdateInstanceStatus(name, "running") in steps && InOrder(steps)
  {
    if slaves == [] then [UpdateInstanceStatus(name, "running")]
    else [VerifyReplication(masterC, SlaveContainers(slaves)), UpdateInstanceStatus(name, "running")]
  }

  method PushVerify(name: string, nodes: Plan, ghost level0: map<NodeId, nat>, ghost l: nat, steps: seq<Step>,
                    ghost side: set<NodeId>)
    returns (out: Plan, ghost level: map<NodeId, nat>)
    requires l > 0 && Under(name, nodes, level0, l) && "lvs" in level0 && level0["lvs"] == l - 1
    requires "verify" !in Ids(nodes) && UpdateInstanceStatus(name, "running") in steps && InOrder(steps)
    requires Feeds(nodes, side, {} + {"lvs"}) && Twins(nodes, side) && "lvs" !in side && "verify" !in side
    ensures Creates(name, out, level) && Ids(out) == Ids(nodes) + {"verify"}
    ensures |out| > 0 && SetsRunning(name, out[|out| - 1]) && NoDts(out)
    ensures StepsOf(out) == StepsOf(nodes) + Elements(steps)
    ensures Closes(out, out[|out| - 1], side) && out[|out| - 1].deps == ["lvs"]
  {
    hide InOrder, IsStart;
    hide Under, Levels, UniqueIds, Creates, Ids, Feeds, Twins, Closes;
    var n := TaskNode("verify", ["lvs"], 2, steps);
    PushedCloses(nodes, side, {} + {"lvs"}, n);
    PushedLast(name, nodes, level0, n, l, "lvs");
    out, level := nodes + [n], level0["verify" := l];
  }

  // ----- The multi-shard plan -----

  /** The id of a shard's node; shards are numbered from 1. */
  function ShardNode(k: nat, suffix: string): NodeId { ShardId(k + 1) + suffix }

  const MASTER := "_master"
  const READ := "_read"
  const OFFLINE := "_offline"
  const VERIFY := "_verify"

  predicate Suffix(x: string) {
    x in {MASTER, READ, OFFLINE, VERIFY}
  }

  lemma {:induction false} SuffixMarks(x: string)
    requires Suffix(x)
    ensures x != "" && !IsDigit(x[0])
  {
  }

  /** `id` is free for a new shard node: it is no fixed id and belongs to no shard node made so far. */
  lemma {:induction false} ShardNodesDiffer(j: nat, k: nat, x: string, y: string)
    requires Suffix(x) && Suffix(y)
    ensures ShardNode(j, x) == ShardNode(k, y) <==> j == k && x == y
    ensures |ShardNode(j, x)| > 1 && ShardNode(j, x)[0] == 's' && IsDigit(ShardNode(j, x)[1])
  {
    SuffixMarks(x);
    SuffixMarks(y);
    if ShardNode(j, x) == ShardNode(k, y) {
      ShardNodeInjective(j + 1, k + 1, x, y);
    }
    assert ShardNode(j, x)[1] == Dec(j + 1)[0];
  }

  /** The ids in use are fixed ones or nodes `(k, x)` of shards below `n`, or of shard `n` itself with
      `x` in `part`. */
  ghost predicate UsedBy(ids: set<NodeId>, fixed: set<NodeId>, n: nat, kinds: set<string>, part: set<string>) {
    forall id :: id in ids ==>
      id in fixed || exists k: nat, x :: id == ShardNode(k, x) && ((k < n && x in kinds) || (k == n && x in part))
  }

  lemma {:induction false} NewShardNode(
      ids: set<NodeId>, fixed: set<NodeId>, n: nat, kinds: set<string>, part: set<string>, x: string)
    requires UsedBy(ids, fixed, n, kinds, part) && Suffix(x) && x !in part
    requires forall y :: y in kinds + part ==> Suffix(y)
    requires forall f :: f in fixed ==> |f| > 1 && !(f[0] == 's' && IsDigit(f[1]))
    ensures ShardNode(n, x) !in ids
    ensures UsedBy(ids + {ShardNode(n, x)}, fixed, n, kinds, part + {x})
    ensures |ShardNode(n, x)| > 1 && ShardNode(n, x)[1] != 't'
  {
    ShardNodesDiffer(n, n, x, x);
    forall k: nat, y | (k < n && y in kinds) || (k == n && y in part) ensures ShardNode(k, y) != ShardNode(n, x) {
      ShardNodesDiffer(k, n, y, x);
    }
  }

  lemma {:induction false} NextShard(
      ids: set<NodeId>, fixed: set<NodeId>, n: nat, kinds: set<string>, part: set<string>)
    requires UsedBy(ids, fixed, n, kinds, part) && part <= kinds
    ensures UsedBy(ids, fixed, n + 1, kinds, {})
  {
  }

  ghost function GroupSteps(g: Group): multiset<Step> {
    Elements(MasterSteps(g.masterC, g.masterSid)) + Elements(SlaveSteps(g.readC, g.masterC, g.masterSid + 1))
    + match g.offlineC
      case None => multiset{}
      case Some(c) => Elements(SlaveSteps(c, g.masterC, g.masterSid + 2))
  }

  ghost function GroupsSteps(groups: seq<Group>, n: nat): multiset<Step>
    requires n <= |groups|
    decreases n
  {
    if n == 0 then multiset{} else GroupsSteps(groups, n - 1) + GroupSteps(groups[n - 1])
  }

  /** The steps that build all shards. */
  ghost function StepsOfGroups(groups: seq<Group>): multiset<Step> {
    GroupsSteps(groups, |groups|)
  }

  const FIXED: set<NodeId> := {"net"}
  const KINDS: set<string> := {MASTER, READ, OFFLINE}

  /** The nodes of a shard that only its verification waits for. */
  ghost function Leaves(k: nat, g: Group): set<NodeId> {
    {ShardNode(k, READ)} + if g.offlineC.Some? then {ShardNode(k, OFFLINE)} else {}
  }

  ghost function AllLeaves(groups: seq<Group>, lo: nat, hi: nat): set<NodeId>
    requires hi <= |groups|
  {
    set k, id | lo <= k < hi && id in Leaves(k, groups[k]) :: id
  }

  method PushShardNode(name: string, nodes: Plan, ghost level0: map<NodeId, nat>, k: nat, x: string,
                       ghost part: set<string>, dep: NodeId, ghost l: nat, steps: seq<Step>, ghost open: set<NodeId>)
    returns (out: Plan, ghost level: map<NodeId, nat>)
    requires 0 < l < 3 && Under(name, nodes, level0, 3) && dep in level0 && level0[dep] == l - 1
    requires UsedBy(Ids(nodes), FIXED, k, KINDS, part) && x in KINDS - part && part <= KINDS
    requires Feeds(nodes, {}, open) && UpdateInstanceStatus(name, "running") !in steps && InOrder(steps)
    ensures Under(name, out, level, 3) && level == level0[ShardNode(k, x) := l]
    ensures ShardNode(k, x) !in Ids(nodes) && Ids(out) == Ids(nodes) + {ShardNode(k, x)}
    ensures UsedBy(Ids(out), FIXED, k, KINDS, part + {x})
    ensures Feeds(out, {}, open - {dep} + {ShardNode(k, x)})
    ensures StepsOf(out) == StepsOf(nodes) + Elements(steps)
  {
    hide InOrder, IsStart;
    hide Under, Levels, UniqueIds, StepsOf, Ids, UsedBy, ShardNode, Elements, Feeds;
    var n := TaskNode(ShardNode(k, x), [dep], 1, steps);
    NewShardNode(Ids(nodes), FIXED, k, KINDS, part, x);
    PushedUnder(name, nodes, level0, 3, n, l, dep);
    PushedFeeds(nodes, {}, open, n, open - {dep} + {n.id});
    out, level := nodes + [n], level0[n.id := l];
  }

  lemma {:induction false} MoreOpen(nodes: Plan, side: set<NodeId>, open: set<NodeId>, open': set<NodeId>)
    requires Feeds(nodes, side, open) && open <= open'
    ensures Feeds(nodes, side, open')
  {
  }

  /** One shard: its master, its read slave and, for async instances, its offline slave. */
  method PushGroup(name: string, nodes: Plan, ghost level0: map<NodeId, nat>, k: nat, g: Group,
                   ghost open: set<NodeId>)
    returns (out: Plan, ghost level: map<NodeId, nat>)
    requires Under(name, nodes, level0, 3) && "net" in level0 && level0["net"] == 0
    requires UsedBy(Ids(nodes), FIXED, k, KINDS, {}) && Feeds(nodes, {}, open)
    ensures Feeds(out, {}, open - {"net"} + Leaves(k, g))
    ensures Under(name, out, level, 3) && UsedBy(Ids(out), FIXED, k + 1, KINDS, {})
    ensures StepsOf(out) == StepsOf(nodes) + GroupSteps(g)
    ensures forall id :: id in level0 && id in Ids(nodes) ==> id in level && level[id] == level0[id]
    ensures Ids(nodes) <= Ids(out)
    ensures At(Ids(out), level, ShardNode(k, MASTER), 1) && At(Ids(out), level, ShardNode(k, READ), 2)
    ensures g.offlineC.Some? ==> At(Ids(out), level, ShardNode(k, OFFLINE), 2)
  {
    hide InOrder, IsStart;
    hide Under, Levels, UniqueIds, StepsOf, Ids, UsedBy, ShardNode;
    hide SlaveSteps, MasterSteps, Elements, GroupSteps, Feeds;
    var masterId, readId := ShardNode(k, MASTER), ShardNode(k, READ);
    NoStatusSteps(name, g.masterC, "", g.masterSid);
    out, level := PushShardNode(
      name, nodes, level0, k, MASTER, {}, "net", 1, MasterSteps(g.masterC, g.masterSid), open);
    NoStatusSteps(name, g.readC, g.masterC, g.masterSid + 1);
    out, level := PushShardNode(
      name, out, level, k, READ, {} + {MASTER}, masterId, 2, SlaveSteps(g.readC, g.masterC, g.masterSid + 1),
      open - {"net"} + {masterId});
    ghost var left := open - {"net"} + {masterId} - {masterId} + {readId};
    ghost var part := {} + {MASTER} + {READ};
    match g.offlineC {
      case None =>
      case Some(c) =>
        var offlineId := ShardNode(k, OFFLINE);
        NoStatusSteps(name, c, g.masterC, g.masterSid + 2);
        out, level := PushShardNode(
          name, out, level, k, OFFLINE, part, masterId, 2,
          SlaveSteps(c, g.masterC, g.masterSid + 2), left);
        left, part := left - {masterId} + {offlineId}, part + {OFFLINE};
    }
    MoreOpen(out, {}, left, open - {"net"} + Leaves(k, g));
    AddGroup(StepsOf(nodes), g);
    NextShard(Ids(out), FIXED, k, KINDS, part);
  }

  lemma {:induction false} AddGroup(s: multiset<Step>, g: Group)
    ensures var one := s + Elements(MasterSteps(g.masterC, g.masterSid));
      var two := one + Elements(SlaveSteps(g.readC, g.masterC, g.masterSid + 1));
      s + GroupSteps(g) ==
        match g.offlineC
        case None => two
        case Some(c) => two + Elements(SlaveSteps(c, g.masterC, g.masterSid + 2))
  {
    hide MasterSteps, SlaveSteps, Elements;
  }

  lemma {:induction false} NoStatusSteps(name: string, c: string, m: string, sid: nat)
    ensures UpdateInstanceStatus(name, "running") !in SlaveSteps(c, m, sid)
    ensures UpdateInstanceStatus(name, "running") !in MasterSteps(c, sid)
    ensures InOrder(SlaveSteps(c, m, sid)) && InOrder(MasterSteps(c, sid))
  {
    var slave, master := SlaveSteps(c, m, sid), MasterSteps(c, sid);
    assert IsStart(slave[0], c) && slave[1] == WaitMysql(c);
    assert IsStart(master[0], c) && master[1] == WaitMysql(c);
  }

  /** Every node of the first `n` shards is there, masters on level 1 and slaves on level 2. */
  ghost predicate ShardsThere(groups: seq<Group>, n: nat, ids: set<NodeId>, level: map<NodeId, nat>)
    requires n <= |groups|
  {
    forall k :: 0 <= k < n ==>
      && At(ids, level, ShardNode(k, MASTER), 1) && At(ids, level, ShardNode(k, READ), 2)
      && (groups[k].offlineC.Some? ==> At(ids, level, ShardNode(k, OFFLINE), 2))
  }

  ghost predicate At(ids: set<NodeId>, level: map<NodeId, nat>, id: NodeId, l: nat) {
    id in ids && id in level && level[id] == l
  }

  lemma {:induction false} ShardsKept(groups: seq<Group>, n: nat, ids: set<NodeId>, level: map<NodeId, nat>,
                   ids': set<NodeId>, level': map<NodeId, nat>)
    requires n <= |groups| && ShardsThere(groups, n, ids, level) && ids <= ids'
    requires forall id :: id in ids && id in level ==> id in level' && level'[id] == level[id]
    ensures ShardsThere(groups, n, ids', level')
  {
    hide ShardNode;
  }

  method PushGroups(name: string, nodes: Plan, ghost level0: map<NodeId, nat>, groups: seq<Group>)
    returns (out: Plan, ghost level: map<NodeId, nat>)
    requires Under(name, nodes, level0, 3) && At(Ids(nodes), level0, "net", 0) && Ids(nodes) == {"net"}
    requires |groups| > 0 && Feeds(nodes, {}, {"net"})
    ensures Feeds(out, {}, AllLeaves(groups, 0, |groups|))
    ensures Under(name, out, level, 3) && UsedBy(Ids(out), FIXED, |groups|, KINDS, {})
    ensures ShardsThere(groups, |groups|, Ids(out), level)
    ensures StepsOf(out) == StepsOf(nodes) + StepsOfGroups(groups)
  {
    hide InOrder, IsStart;
    hide Under, Levels, UniqueIds, StepsOf, Ids, ShardNode, GroupSteps, ShardsThere, UsedBy, Feeds;
    hide Leaves, AllLeaves;
    out, level := nodes, level0;
    var k := 0;
    assert UsedBy(Ids(out), FIXED, 0, KINDS, {}) && ShardsThere(groups, 0, Ids(out), level) by {
      NoShardsYet(groups, Ids(out), level);
    }
    while k < |groups|
      invariant 0 <= k <= |groups|
      invariant Under(name, out, level, 3) && UsedBy(Ids(out), FIXED, k, KINDS, {})
      invariant At(Ids(out), level, "net", 0) && ShardsThere(groups, k, Ids(out), level)
      invariant StepsOf(out) == StepsOf(nodes) + GroupsSteps(groups, k)
      invariant Feeds(out, {}, if k == 0 then {"net"} else AllLeaves(groups, 0, k))
    {
      ghost var ids, before := Ids(out), level;
      ghost var open := if k == 0 then {"net"} else AllLeaves(groups, 0, k);
      MoreLeaves(groups, k);
      out, level := PushGroup(name, out, level, k, groups[k], open);
      ShardsKept(groups, k, ids, before, Ids(out), level);
      ShardAdded(groups, k, Ids(out), level);
      k := k + 1;
    }
  }

  lemma {:induction false} MoreLeaves(groups: seq<Group>, k: nat)
    requires k < |groups|
    ensures (if k == 0 then {"net"} else AllLeaves(groups, 0, k)) - {"net"} + Leaves(k, groups[k])
      == AllLeaves(groups, 0, k + 1)
  {
    forall j, id | 0 <= j < |groups| && id in Leaves(j, groups[j]) ensures id != "net" {
      ShardNodesDiffer(j, j, READ, OFFLINE);
      ShardNodesDiffer(j, j, OFFLINE, READ);
    }
  }

  lemma {:induction false} NoShardsYet(groups: seq<Group>, ids: set<NodeId>, level: map<NodeId, nat>)
    requires ids == {"net"}
    ensures UsedBy(ids, FIXED, 0, KINDS, {}) && ShardsThere(groups, 0, ids, level)
  {
  }

  lemma {:induction false} ShardAdded(groups: seq<Group>, k: nat, ids: set<NodeId>, level: map<NodeId, nat>)
    requires k < |groups| && ShardsThere(groups, k, ids, level)
    requires At(ids, level, ShardNode(k, MASTER), 1) && At(ids, level, ShardNode(k, READ), 2)
    requires groups[k].offlineC.Some? ==> At(ids, level, ShardNode(k, OFFLINE), 2)
    ensures ShardsThere(groups, k + 1, ids, level)
  {
  }

  /** What a shard's verification covers: its master against its slaves. */
  function VerifyGroup(g: Group): Step {
    VerifyReplication(g.masterC, [g.readC] + match g.offlineC case None => [] case Some(c) => [c])
  }

  ghost function VerifyGroups(groups: seq<Group>, n: nat): multiset<Step>
    requires n <= |groups|
    decreases n
  {
    if n == 0 then multiset{} else VerifyGroups(groups, n - 1) + multiset{VerifyGroup(groups[n - 1])}
  }

  /** One verification per shard, after the shard's slaves and the access layer. */
  method PushVerifies(name: string, nodes: Plan, ghost level0: map<NodeId, nat>, groups: seq<Group>,
                      ghost side: set<NodeId>)
    returns (out: Plan, ghost level: map<NodeId, nat>, verifyIds: seq<NodeId>)
    requires |groups| > 0 && Under(name, nodes, level0, 6) && At(Ids(nodes), level0, "lvs", 5)
    requires forall k: nat :: ShardNode(k, VERIFY) !in Ids(nodes)
    requires ShardsThere(groups, |groups|, Ids(nodes), level0) && NoShard(side)
    requires Feeds(nodes, side, AllLeaves(groups, 0, |groups|) + {"lvs"}) && Twins(nodes, side)
    ensures Feeds(out, side, Listed(verifyIds)) && Twins(out, side)
    ensures Under(name, out, level, 7)
    ensures |verifyIds| == |groups|
    ensures forall k :: 0 <= k < |groups| ==>
      verifyIds[k] == ShardNode(k, VERIFY) && At(Ids(out), level, verifyIds[k], 6)
    ensures StepsOf(out) == StepsOf(nodes) + VerifyGroups(groups, |groups|)
    ensures forall id :: id in Ids(out) ==> id in Ids(nodes) || id in verifyIds
  {
    hide InOrder, IsStart;
    hide Under, Levels, UniqueIds, StepsOf, Ids, ShardNode, ShardsThere, Feeds, Twins, AllLeaves, Listed, NoShard;
    hide ToVerify;
    out, level, verifyIds := nodes, level0, [];
    var k := 0;
    AllToVerify(groups);
    while k < |groups|
      invariant 0 <= k <= |groups| && |verifyIds| == k
      invariant Under(name, out, level, if k == 0 then 6 else 7)
      invariant At(Ids(out), level, "lvs", 5) && ShardsThere(groups, |groups|, Ids(out), level)
      invariant forall j :: 0 <= j < k ==> verifyIds[j] == ShardNode(j, VERIFY) && At(Ids(out), level, verifyIds[j], 6)
      invariant forall id :: id in Ids(out) ==> id in Ids(nodes) || id in verifyIds
      invariant StepsOf(out) == StepsOf(nodes) + VerifyGroups(groups, k)
      invariant Feeds(out, side, ToVerify(groups, k, verifyIds)) && Twins(out, side)
    {
      var vid := ShardNode(k, VERIFY);
      NewVerify(k, Ids(nodes), verifyIds);
      LessToVerify(groups, k, verifyIds, vid);
      ghost var open := ToVerify(groups, k, verifyIds);
      verifyIds := verifyIds + [vid];
      out, level := PushVerifyGroup(name, out, level, groups, k, side, open, ToVerify(groups, k + 1, verifyIds));
      k := k + 1;
    }
    NothingToVerify(groups, verifyIds);
  }

  /** What still has to be waited for when the first `k` shards have their verification. */
  ghost function ToVerify(groups: seq<Group>, k: nat, verifyIds: seq<NodeId>): set<NodeId>
    requires k <= |groups|
  {
    AllLeaves(groups, k, |groups|) + Listed(verifyIds) + if k == 0 then {"lvs"} else {}
  }

  lemma {:induction false} AllToVerify(groups: seq<Group>)
    ensures ToVerify(groups, 0, []) == AllLeaves(groups, 0, |groups|) + {"lvs"}
  {
  }

  lemma {:induction false} NothingToVerify(groups: seq<Group>, verifyIds: seq<NodeId>)
    requires |groups| > 0
    ensures ToVerify(groups, |groups|, verifyIds) == Listed(verifyIds)
  {
  }

  lemma {:induction false} LessToVerify(groups: seq<Group>, k: nat, verifyIds: seq<NodeId>, vid: NodeId)
    requires k < |groups|
    ensures vid in ToVerify(groups, k + 1, verifyIds + [vid])
    ensures forall id :: id in ToVerify(groups, k, verifyIds) ==>
      id in Leaves(k, groups[k]) || id == "lvs" || id in ToVerify(groups, k + 1, verifyIds + [vid])
  {
    hide Leaves;
    ListedMore(verifyIds, vid);
    assert AllLeaves(groups, k, |groups|) <= AllLeaves(groups, k + 1, |groups|) + Leaves(k, groups[k]);
  }

  /** `side` contains no shard node and none of the fixed ones. */
  ghost predicate NoShard(side: set<NodeId>) {
    forall id :: id in side ==> id != "" && id[0] == 'p'
  }

  lemma {:induction false} NewVerify(k: nat, ids: set<NodeId>, verifyIds: seq<NodeId>)
    requires |verifyIds| == k && forall j :: 0 <= j < k ==> verifyIds[j] == ShardNode(j, VERIFY)
    ensures ShardNode(k, VERIFY) !in verifyIds
  {
    forall j | 0 <= j < k ensures verifyIds[j] != ShardNode(k, VERIFY) {
      ShardNodesDiffer(j, k, VERIFY, VERIFY);
    }
  }

  method PushVerifyGroup(name: string, nodes: Plan, ghost level0: map<NodeId, nat>, groups: seq<Group>, k: nat,
                         ghost side: set<NodeId>, ghost open: set<NodeId>, ghost next: set<NodeId>)
    returns (out: Plan, ghost level: map<NodeId, nat>)
    requires k < |groups| && Under(name, nodes, level0, if k == 0 then 6 else 7)
    requires At(Ids(nodes), level0, "lvs", 5) && ShardsThere(groups, |groups|, Ids(nodes), level0)
    requires ShardNode(k, VERIFY) !in Ids(nodes)
    requires Feeds(nodes, side, open) && Twins(nodes, side) && NoShard(side)
    requires ShardNode(k, VERIFY) in next
    requires forall id :: id in open ==> id in Leaves(k, groups[k]) || id == "lvs" || id in next
    ensures Feeds(out, side, next) && Twins(out, side)
    ensures Under(name, out, level, 7) && Ids(out) == Ids(nodes) + {ShardNode(k, VERIFY)}
    ensures At(Ids(out), level, ShardNode(k, VERIFY), 6)
    ensures At(Ids(out), level, "lvs", 5) && ShardsThere(groups, |groups|, Ids(out), level)
    ensures forall id :: id in Ids(nodes) && id in level0 ==> id in level && level[id] == level0[id]
    ensures StepsOf(out) == StepsOf(nodes) + multiset{VerifyGroup(groups[k])}
  {
    hide InOrder, IsStart;
    hide Under, Levels, UniqueIds, StepsOf, Ids, ShardNode, Feeds, Twins, Leaves, NoShard, VerifyNode, Elements;
    hide ShardsThere;
    var n := VerifyNode(k, groups[k]);
    LeavesThere(groups, k, Ids(nodes), level0);
    VerifyNodeDeps(name, k, groups[k], side);
    PushedUnder(name, nodes, level0, if k == 0 then 6 else 7, n, 6, "lvs");
    PushedFeeds(nodes, side, open, n, next);
    PushedTwins(nodes, side, n);
    out, level := nodes + [n], level0[n.id := 6];
    ShardsKept(groups, |groups|, Ids(nodes), level0, Ids(out), level);
  }

  lemma {:induction false} LeavesThere(groups: seq<Group>, k: nat, ids: set<NodeId>, level: map<NodeId, nat>)
    requires k < |groups| && ShardsThere(groups, |groups|, ids, level)
    ensures forall id :: id in Leaves(k, groups[k]) ==> id in level && level[id] == 2
  {
    hide ShardNode;
  }

  function VerifyNode(k: nat, g: Group): TaskNode {
    TaskNode(ShardNode(k, VERIFY),
             [ShardNode(k, READ)] + (if g.offlineC.Some? then [ShardNode(k, OFFLINE)] else []) + ["lvs"],
             2, [VerifyGroup(g)])
  }

  lemma {:induction false} VerifyNodeDeps(name: string, k: nat, g: Group, side: set<NodeId>)
    requires NoShard(side)
    ensures var n := VerifyNode(k, g);
      && n.id == ShardNode(k, VERIFY) && !SetsRunning(name, n) && "lvs" in n.deps
      && |n.id| > 1 && n.id[1] != 't' && n.id !in side
      && Elements(n.steps) == multiset{VerifyGroup(g)} && InOrder(n.steps)
      && (forall d :: d in n.deps ==> d !in side && (d in Leaves(k, g) || d == "lvs"))
      && (forall d :: d in Leaves(k, g) || d == "lvs" ==> d in n.deps)
  {
    hide ShardNode;
    ShardNodesDiffer(k, k, VERIFY, READ);
    ShardNodesDiffer(k, k, READ, READ);
    ShardNodesDiffer(k, k, OFFLINE, READ);
  }

  /** The creation plan of an instance with several shards; the proxies are configured from shard 1. */
  method CreateNodesMulti(name: string, network: string, groups: seq<Group>, proxies: seq<string>)
    returns (out: Plan, ghost level: map<NodeId, nat>)
    requires |groups| > 0 && |proxies| > 0
    ensures Creates(name, out, level)
    ensures |out| > 0 && SetsRunning(name, out[|out| - 1]) && NoDts(out)
    ensures StepsOf(out) ==
      multiset{NetworkCreate(network)} + StepsOfGroups(groups) + multiset{WriteHostFile(ConfPath(name))}
      + ProxySteps(proxies, |proxies|) + multiset{EnsureLvs(name)} + VerifyGroups(groups, |groups|)
      + multiset{UpdateInstanceStatus(name, "running")}
    ensures Closes(out, out[|out| - 1], SideProxies(proxies))
    ensures Builds(out, AllServers(groups, |groups|), proxies)
    ensures MastersDiffer(groups) ==> Verifies(out, AllServers(groups, |groups|))
  {
    hide Builds, AllServers, Verifies, MastersDiffer;
    hide InOrder, IsStart;
    hide Under, Levels, UniqueIds, StepsOf, Ids, ShardNode, ProxySteps, ProxyIds, UsedBy, Creates, GroupSteps;
    hide StepsOfGroups, VerifyGroups, Feeds, Twins, SideProxies, AllLeaves, NoShard, Listed, Closes;
    out, level := PushNetwork(name, network);
    UnderWeaker(name, out, level, 1, 3);
    out, level := PushGroups(name, out, level, groups);
    FixedIdsAreFree(Ids(out), |groups|, |proxies|);

    var firstMaster, firstRead := ShardNode(0, MASTER), ShardNode(0, READ);
    var n := TaskNode("proxy_conf", [firstMaster, firstRead], 0, [WriteHostFile(ConfPath(name))]);
    assert At(Ids(out), level, firstMaster, 1) && At(Ids(out), level, firstRead, 2);
    OneStep(WriteHostFile(ConfPath(name)));
    ghost var ids, before := Ids(out), level;
    ghost var open := AllLeaves(groups, 0, |groups|);
    out, level := PushAccess(name, out, level, 3, n, firstRead, proxies, open, open);
    ShardsKept(groups, |groups|, ids, before, Ids(out), level);

    var verifyIds;
    assert NoShard(SideProxies(proxies)) by {
      SideHasNoShard(proxies);
    }
    out, level, verifyIds := PushVerifies(name, out, level, groups, SideProxies(proxies));
    VerifiesAreNot(verifyIds, SideProxies(proxies));
    out, level := PushDone(name, out, level, 7, verifyIds, SideProxies(proxies), Listed(verifyIds));
    CreatesInOrder(name, out, level);
    MultiBuilds(name, network, groups, proxies, out);
    if MastersDiffer(groups) {
      MultiVerifies(name, network, groups, proxies, out);
    }
  }

  lemma {:induction false} SideHasNoShard(proxies: seq<string>)
    ensures NoShard(SideProxies(proxies))
  {
    hide SideProxies;
    SideIsPart(proxies);
  }

  lemma {:induction false} VerifiesAreNot(verifyIds: seq<NodeId>, side: set<NodeId>)
    requires NoShard(side) && forall j :: 0 <= j < |verifyIds| ==> verifyIds[j] == ShardNode(j, VERIFY)
    ensures forall d :: d in verifyIds ==> d !in side
    ensures forall d :: d in Listed(verifyIds) <==> d in verifyIds
    ensures "done" !in side
  {
    hide ShardNode;
    forall j | 0 <= j < |verifyIds| ensures verifyIds[j] !in side {
      ShardNodesDiffer(j, j, VERIFY, VERIFY);
    }
  }

  lemma {:induction false} UnderWeaker(name: string, nodes: Plan, level: map<NodeId, nat>, low: nat, high: nat)
    requires Under(name, nodes, level, low) && low <= high
    ensures Under(name, nodes, level, high)
  {
  }

  lemma {:induction false} FixedIdsAreFree(ids: set<NodeId>, n: nat, proxies: nat)
    requires UsedBy(ids, FIXED, n, KINDS, {})
    ensures "proxy_conf" !in ids && "lvs" !in ids && "done" !in ids && ids !! ProxyIds(proxies)
    ensures "done" !in ProxyIds(proxies)
    ensures forall k: nat :: ShardNode(k, VERIFY) !in ids + {"proxy_conf"} + ProxyIds(proxies) + {"lvs"} + {"done"}
  {
    hide ShardNode;
    forall id | id in ids ensures id == "net" || (id != "" && id[0] == 's') {
      if id != "net" {
        var k: nat, x :| id == ShardNode(k, x) && k < n && x in KINDS;
        ShardNodesDiffer(k, k, x, x);
      }
    }
    assert forall i :: 0 <= i < proxies ==> ProxyId(i)[0] == 'p';
    forall k: nat ensures ShardNode(k, VERIFY) !in ids && ShardNode(k, VERIFY) != "" && ShardNode(k, VERIFY)[0] == 's' {
      ShardNodesDiffer(k, k, VERIFY, VERIFY);
      forall j: nat, x | x in KINDS ensures ShardNode(j, x) != ShardNode(k, VERIFY) {
        ShardNodesDiffer(j, k, x, VERIFY);
      }
    }
  }

  /** The closing node waits for all of `deps`, which lie on the level just below. */
  method PushDone(name: string, nodes: Plan, ghost level0: map<NodeId, nat>, ghost l: nat, deps: seq<NodeId>,
                  ghost side: set<NodeId>, ghost open: set<NodeId>)
    returns (out: Plan, ghost level: map<NodeId, nat>)
    requires Feeds(nodes, side, open) && Twins(nodes, side) && "done" !in side
    requires (forall d :: d in deps ==> d !in side) && forall id :: id in open ==> id in deps
    requires l > 0 && Under(name, nodes, level0, l) && |deps| > 0 && "done" !in Ids(nodes)
    requires forall i :: 0 <= i < |deps| ==> deps[i] in level0 && level0[deps[i]] == l - 1
    ensures Creates(name, out, level) && |out| > 0 && SetsRunning(name, out[|out| - 1]) && NoDts(out)
    ensures StepsOf(out) == StepsOf(nodes) + multiset{UpdateInstanceStatus(name, "running")}
    ensures Closes(out, out[|out| - 1], side) && out[|out| - 1].deps == deps
  {
    hide InOrder, IsStart;
    hide Under, Levels, UniqueIds, StepsOf, Ids, Creates, Feeds, Twins, Closes;
    var n := TaskNode("done", deps, 0, [UpdateInstanceStatus(name, "running")]);
    OneStep(UpdateInstanceStatus(name, "running"));
    PushedLast(name, nodes, level0, n, l, deps[0]);
    PushedCloses(nodes, side, open, n);
    out, level := nodes + [n], level0["done" := l];
    assert Elements(n.steps) == multiset{UpdateInstanceStatus(name, "running")};
  }

  // ----- The xenon plan -----

  ghost function XenonIds(n: nat): set<NodeId> { set i | 0 <= i < n :: XenonId(i) }

  ghost function XenonSteps(members: seq<string>, n: nat): multiset<Step>
    requires n <= |members|
    decreases n
  {
    if n == 0 then multiset{}
    else XenonSteps(members, n - 1) + multiset{DockerRun(members[n - 1], None), WaitMysql(members[n - 1])}
  }

  lemma {:induction false} NewMember(i: nat)
    ensures XenonId(i) !in XenonIds(i) + {"net"} && XenonIds(i + 1) == XenonIds(i) + {XenonId(i)}
    ensures |XenonId(i)| > 1 && XenonId(i)[1] == 'o'
  {
    forall j | 0 <= j < i ensures XenonId(j) != XenonId(i) {
      XenonIdInjective(i, j);
    }
  }

  lemma {:induction false} NoMembers(members: seq<string>)
    ensures XenonIds(0) == {} && XenonSteps(members, 0) == multiset{}
  {
  }

  lemma {:induction false} NextMemberSteps(members: seq<string>, i: nat)
    requires i < |members|
    ensures var steps := [DockerRun(members[i], None), WaitMysql(members[i])];
      XenonSteps(members, i + 1) == XenonSteps(members, i) + Elements(steps) && InOrder(steps)
  {
  }

  method PushMembers(name: string, nodes: Plan, ghost level0: map<NodeId, nat>, members: seq<string>)
    returns (out: Plan, ghost level: map<NodeId, nat>, memberIds: seq<NodeId>)
    requires Under(name, nodes, level0, 2) && "net" in level0 && level0["net"] == 0 && Ids(nodes) == {"net"}
    requires Feeds(nodes, {}, {"net"})
    ensures Under(name, out, level, 2) && Ids(out) == {"net"} + XenonIds(|members|)
    ensures |memberIds| == |members| && forall j :: 0 <= j < |members| ==>
      memberIds[j] in level && level[memberIds[j]] == 1
    ensures StepsOf(out) == StepsOf(nodes) + XenonSteps(members, |members|)
    ensures Feeds(out, {}, if members == [] then {"net"} else Listed(memberIds))
  {
    hide InOrder, IsStart;
    hide Under, Levels, UniqueIds, StepsOf, Ids, Feeds, XenonId, XenonIds, XenonSteps, Listed, Elements;
    NoMembers(members);
    out, level, memberIds := nodes, level0, [];
    var i := 0;
    while i < |members|
      invariant 0 <= i <= |members| && |memberIds| == i
      invariant Under(name, out, level, 2) && Ids(out) == {"net"} + XenonIds(i)
      invariant "net" in level && level["net"] == 0
      invariant forall j :: 0 <= j < i ==> memberIds[j] in level && level[memberIds[j]] == 1
      invariant StepsOf(out) == StepsOf(nodes) + XenonSteps(members, i)
      invariant Feeds(out, {}, if i == 0 then {"net"} else Listed(memberIds))
    {
      var id := XenonId(i);
      NewMember(i);
      NextMemberSteps(members, i);
      ghost var open := if i == 0 then {"net"} else Listed(memberIds);
      ListedMore(memberIds, id);
      memberIds := memberIds + [id];
      var n := TaskNode(id, ["net"], 1, [DockerRun(members[i], None), WaitMysql(members[i])]);
      PushedUnder(name, out, level, 2, n, 1, "net");
      PushedFeeds(out, {}, open, n, Listed(memberIds));
      out, level := out + [n], level[id := 1];
      i := i + 1;
    }
  }

  /** The members and the check that they form a cluster. */
  method PushCluster(name: string, network: string, members: seq<string>)
    returns (out: Plan, ghost level: map<NodeId, nat>)
    requires |members| > 0
    ensures Under(name, out, level, 3) && "verify" in level && level["verify"] == 2
    ensures Ids(out) == {"net"} + XenonIds(|members|) + {"verify"} && Feeds(out, {}, {"verify"})
    ensures StepsOf(out) ==
      multiset{NetworkCreate(network)} + XenonSteps(members, |members|) + multiset{VerifyXenon(members)}
  {
    hide InOrder, IsStart;
    hide Under, Levels, UniqueIds, StepsOf, Ids, XenonSteps, XenonIds, ProxyIds, Feeds, Listed, Elements;
    out, level := PushNetwork(name, network);
    UnderWeaker(name, out, level, 1, 2);
    var memberIds;
    out, level, memberIds := PushMembers(name, out, level, members);
    XenonIdsAreNot(|members|, 0);
    ListedAre(memberIds);
    OneStep(VerifyXenon(members));
    var n := TaskNode("verify", memberIds, 2, [VerifyXenon(members)]);
    PushedUnder(name, out, level, 2, n, 2, memberIds[0]);
    PushedFeeds(out, {}, Listed(memberIds), n, {"verify"});
    out, level := out + [n], level["verify" := 2];
  }

  /** The creation plan of a xenon instance: its members, the cluster check, and optionally proxies. */
  method CreateNodesXenon(name: string, network: string, members: seq<string>, proxies: seq<string>)
    returns (out: Plan, ghost level: map<NodeId, nat>)
    requires |members| > 0
    ensures Creates(name, out, level)
    ensures |out| > 0 && SetsRunning(name, out[|out| - 1]) && NoDts(out)
    ensures StepsOf(out) ==
      multiset{NetworkCreate(network)} + XenonSteps(members, |members|) + multiset{VerifyXenon(members)}
      + (if proxies == [] then multiset{}
         else multiset{WriteHostFile(ConfPath(name))} + ProxySteps(proxies, |proxies|) + multiset{EnsureLvs(name)})
      + multiset{UpdateInstanceStatus(name, "running")}
    ensures Closes(out, out[|out| - 1], SideProxies(proxies))
    ensures out[|out| - 1].deps == [if proxies == [] then "verify" else "lvs"]
  {
    hide InOrder, IsStart;
    hide Under, Levels, UniqueIds, StepsOf, Ids, Creates, XenonSteps, ProxySteps, XenonIds, ProxyIds;
    hide Feeds, Twins, SideProxies, Closes, Elements, ConfPath;
    out, level := PushCluster(name, network, members);
    XenonIdsAreNot(|members|, |proxies|);
    if proxies == [] {
      NoSide(out, proxies);
      out, level := PushDone(name, out, level, 3, ["verify"], {}, {"verify"});
    } else {
      var n := TaskNode("proxy_conf", ["verify"], 0, [WriteHostFile(ConfPath(name))]);
      OneStep(WriteHostFile(ConfPath(name)));
      out, level := PushAccess(name, out, level, 3, n, "verify", proxies, {"verify"}, {});
      SideIsPart(proxies);
      out, level := PushDone(name, out, level, 6, ["lvs"], SideProxies(proxies), {} + {"lvs"});
    }
  }

  lemma {:induction false} ListedAre(ids: seq<NodeId>)
    ensures forall d :: d in Listed(ids) <==> d in ids
  {
  }

  lemma {:induction false} NoSide(nodes: Plan, proxies: seq<string>)
    requires |proxies| <= 1
    ensures SideProxies(proxies) == {} && Twins(nodes, {})
  {
  }

  lemma {:induction false} XenonIdsAreNot(n: nat, m: nat)
    ensures XenonIds(n) !! ProxyIds(m) && XenonIds(n) !! {"net", "verify", "proxy_conf", "lvs", "done"}
    ensures ProxyIds(m) !! {"net", "verify", "lvs", "done"}
  {
    assert forall i :: 0 <= i < n ==> XenonId(i)[0] == 'n' && XenonId(i)[1] == 'o';
    assert forall i :: 0 <= i < m ==> ProxyId(i)[0] == 'p';
  }

  // ----- The DTS tail -----

  /** The optional DTS registrations all depend on the last node of the creation plan. They keep what
      the plan promises, although they come after the node that sets the instance running. */
  method AppendDts(name: string, plan: Plan, ghost level0: map<NodeId, nat>, targets: seq<string>,
                   ghost side: set<NodeId>)
    returns (out: Plan, ghost level: map<NodeId, nat>)
    requires Creates(name, plan, level0) && NoDts(plan) && |plan| > 0 && Closes(plan, plan[|plan| - 1], side)
    requires forall i, j :: 0 <= i < j < |targets| ==> targets[i] != targets[j]
    ensures Creates(name, out, level) && Closes(out, plan[|plan| - 1], side)
    ensures plan <= out && |out| == |plan| + |targets|
    ensures forall i :: 0 <= i < |targets| ==>
      out[|plan| + i] == TaskNode(DtsId(targets[i]), [plan[|plan| - 1].id], 0, [DtsRun(name, targets[i])])
    ensures forall servers, proxies :: Builds(plan, servers, proxies) ==>
      Builds(out, servers, proxies) && (Verifies(plan, servers) ==> Verifies(out, servers))
  {
    hide Creates, NoDts, Closes, Builds, Verifies, InOrder;
    var tail := plan[|plan| - 1].id;
    assert tail in level0 by {
      LastOnLevel(name, plan, level0);
    }
    out, level := plan, level0;
    var i := 0;
    while i < |targets|
      invariant 0 <= i <= |targets|
      invariant Creates(name, out, level) && plan <= out && |out| == |plan| + i
      invariant Closes(out, plan[|plan| - 1], side)
      invariant tail in level && level[tail] == level0[tail]
      invariant forall servers, proxies :: Builds(plan, servers, proxies) ==>
        Builds(out, servers, proxies) && (Verifies(plan, servers) ==> Verifies(out, servers))
      invariant forall j :: 0 <= j < i ==>
        out[|plan| + j] == TaskNode(DtsId(targets[j]), [tail], 0, [DtsRun(name, targets[j])])
    {
      var n := TaskNode(DtsId(targets[i]), [tail], 0, [DtsRun(name, targets[i])]);
      NewDts(name, plan, out, targets, i);
      OneStep(DtsRun(name, targets[i]));
      PushedDts(name, out, level, n, tail);
      forall servers, proxies | Builds(plan, servers, proxies)
        ensures Builds(out + [n], servers, proxies) && (Verifies(plan, servers) ==> Verifies(out + [n], servers))
      {
        DtsKeepsBuilds(out, servers, proxies, n);
      }
      DtsStaysClosed(out, plan[|plan| - 1], side, n);
      out, level := out + [n], level[n.id := level[tail] + 1];
      i := i + 1;
    }
  }

  lemma {:induction false} DtsStaysClosed(nodes: Plan, z: TaskNode, side: set<NodeId>, n: TaskNode)
    requires Closes(nodes, z, side) && IsDts(n) && n.deps == [z.id] && n.id !in Ids(nodes)
    ensures Closes(nodes + [n], z, side)
  {
    var nodes' := nodes + [n];
    forall m | m in nodes' && !IsDts(m) && m.id !in side && m.id != z.id ensures WaitedFor(nodes', side, m.id) {
      assert m in nodes;
      var u :| u in nodes && !IsDts(u) && u.id !in side && m.id in u.deps;
      assert u in nodes';
    }
    assert Ids(nodes) <= Ids(nodes') by {
      assert forall m :: m in nodes ==> m in nodes';
    }
    forall m | m in nodes' && m.id in side ensures !IsDts(m) && HasTwinBut(nodes', side, m, z.id) {
      assert m in nodes && HasTwinBut(nodes, side, m, z.id);
      var b :| b in nodes && !IsDts(b) && b.id !in side && b.id != z.id && forall d :: d in m.deps ==> d in b.deps;
      assert b in nodes';
    }
  }

  lemma {:induction false} LastOnLevel(name: string, plan: Plan, level: map<NodeId, nat>)
    requires Creates(name, plan, level) && |plan| > 0
    ensures plan[|plan| - 1].id in level
  {
    assert plan[|plan| - 1] in plan;
  }

  lemma {:induction false} NewDts(name: string, plan: Plan, out: Plan, targets: seq<string>, i: nat)
    requires NoDts(plan) && plan <= out && i < |targets| && |out| == |plan| + i
    requires forall j :: 0 <= j < i ==> out[|plan| + j].id == DtsId(targets[j])
    requires forall j, k :: 0 <= j < k < |targets| ==> targets[j] != targets[k]
    ensures DtsId(targets[i]) !in Ids(out)
  {
    forall n | n in out ensures n.id != DtsId(targets[i]) {
      var j :| 0 <= j < |out| && out[j] == n;
      if j < |plan| {
        assert plan[j] == n && plan[j] in plan;
        assert "dts-" <= DtsId(targets[i]);
      } else {
        var m := j - |plan|;
        assert out[|plan| + m].id == DtsId(targets[m]) && targets[m] != targets[i];
        assert DtsId(targets[m])[4..] == targets[m] && DtsId(targets[i])[4..] == targets[i];
      }
    }
  }

  lemma {:induction false} PushedDts(name: string, nodes: Plan, level: map<NodeId, nat>, n: TaskNode, tail: NodeId)
    requires Creates(name, nodes, level) && n.id !in Ids(nodes) && IsDts(n) && !SetsRunning(name, n)
    requires InOrder(n.steps)
    requires n.deps == [tail] && tail in level
    ensures Creates(name, nodes + [n], level[n.id := level[tail] + 1])
  {
    hide Levels, UniqueIds, InOrder, FirstSteps;
    assert level.Keys == Ids(nodes) by {
      LevelKeys(nodes, level);
    }
    PushedIds(nodes, n);
    PushedLevels(nodes, level, n, level[tail] + 1, tail);
    assert forall m :: m in nodes ==> m.id in Ids(nodes);
  }

  lemma {:induction false} LevelKeys(nodes: Plan, level: map<NodeId, nat>)
    requires Levels(nodes, level)
    ensures level.Keys == Ids(nodes)
  {
  }
}
