/** From the records of a new instance to the plan that builds it, as src/instance.rs puts the two together. */
module CreationPlans {
  import opened Wrappers
  import opened Graph
  import opened Instance
  import opened Topology
  import opened Plans
  import Reparent

  /** The plan builds what the records say, nothing more: every server is started once, under its
      recorded server id; every slave follows its recorded parent, told so once, after it is up; masters
      alone get the replication user, and every master with slaves is verified against just these. */
  ghost predicate Matches(plan: Plan, nodes: seq<InstNode>, proxies: seq<string>) {
    && (forall n :: n in nodes ==> StepsOf(plan)[DockerRun(n.container, Some(n.serverId))] == 1)
    && (forall c, id :: DockerRun(c, Some(id)) in StepsOf(plan) ==>
          exists n :: n in nodes && n.container == c && n.serverId == id)
    && (forall n :: n in nodes && n.role != Master ==> StepsOf(plan)[ExecSql(n.container, FollowSource(n.parent))] == 1)
    && (forall c, source :: ExecSql(c, FollowSource(source)) in StepsOf(plan) ==>
          exists n :: n in nodes && n.role != Master && n.container == c && n.parent == source)
    && (forall n :: n in nodes && n.role == Master ==> StepsOf(plan)[ExecSql(n.container, CreateReplicationUser)] == 1)
    && (forall c :: ExecSql(c, CreateReplicationUser) in StepsOf(plan) ==>
          exists n :: n in nodes && n.role == Master && n.container == c)
    && (forall c :: StepsOf(plan)[DockerRun(c, None)] == multiset(proxies)[c])
    && (forall n :: n in plan ==> InOrder(n.steps))
    && Verifies(plan, Registered(nodes))
  }

  /** Masters, and they alone, have no parent. */
  ghost predicate ParentsFit(nodes: seq<InstNode>) {
    forall n :: n in nodes ==> (n.role == Master <==> n.parent == "")
  }

  lemma {:induction false} BuildsMatches(plan: Plan, nodes: seq<InstNode>, proxies: seq<string>)
    requires Builds(plan, Registered(nodes), proxies) && UniqueContainers(nodes) && ParentsFit(nodes)
    requires Verifies(plan, Registered(nodes))
    ensures Matches(plan, nodes, proxies)
  {
    hide StepsOf, InOrder, UniqueContainers, ParentsFit, Wanting, Verifies;
    var servers := Registered(nodes);
    RegisteredDiffer(nodes);
    forall st | OfServers(st)
      ensures StepsOf(plan)[st] == if exists i :: 0 <= i < |nodes| && Wants(ServerOf(nodes[i]), st) then 1 else 0
    {
      WantedOnce(servers, |servers|, st);
      assert forall i :: 0 <= i < |nodes| ==> servers[i] == ServerOf(nodes[i]);
    }
    hide Registered, Builds;
    MastersHaveNoParent(nodes);
  }

  lemma {:induction false} RegisteredDiffer(nodes: seq<InstNode>)
    requires UniqueContainers(nodes)
    ensures forall i, j :: 0 <= i < j < |nodes| ==> Registered(nodes)[i].container != Registered(nodes)[j].container
  {
  }

  lemma {:induction false} MastersHaveNoParent(nodes: seq<InstNode>)
    requires ParentsFit(nodes)
    ensures forall n :: n in nodes ==> (n.role == Master <==> ServerOf(n).source == None)
    ensures forall n :: n in nodes && n.role != Master ==> ServerOf(n).source == Some(n.parent)
  {
  }

  // ----- One shard -----

  /** The slaves in the order of their records, numbered from the master's server id. */
  method SlaveSpecs(name: string, shard: string, nodes: seq<InstNode>, masterSid: nat) returns (specs: seq<SlaveSpec>)
    requires |nodes| > 0 && forall j :: 0 <= j < |nodes| ==> nodes[j] == SingleNode(name, masterSid, shard, j)
    ensures |specs| == |nodes| - 1
    ensures forall j :: 0 <= j < |specs| ==> specs[j] == SlaveSpec(nodes[j + 1].container, nodes[j + 1].serverId)
  {
    hide ContainerOf;
    specs := [];
    var slave, i := 0, 0;
    while i < |nodes|
      invariant 0 <= i <= |nodes| && slave == |specs| == if i == 0 then 0 else i - 1
      invariant forall j :: 0 <= j < |specs| ==> specs[j] == SlaveSpec(nodes[j + 1].container, nodes[j + 1].serverId)
    {
      if nodes[i].role != Master {
        slave := slave + 1;
        specs := specs + [SlaveSpec(nodes[i].container, masterSid + slave)];
      }
      i := i + 1;
    }
  }

  /** The records of a new instance with one shard, and the plan that builds it. */
  method PlanSingle(
      m: Manager, name: string, itype: string, shard: string, network: string, proxies: seq<string>)
    returns (nodes: seq<InstNode>, plan: Plan, ghost level: map<NodeId, nat>)
    requires |proxies| > 0
    modifies m
    ensures Matches(plan, nodes, proxies) && Creates(name, plan, level)
    ensures Reparent.RootedAt(nodes, ContainerOf(name, Slot(0, 0)))
    ensures |nodes| == if itype == "single" then 1 else if itype == "sync" then 2 else 3
  {
    hide Named, SingleShard, Numbered, AtMostOneOfflinePerShard, Reparent.RootedAt, ContainerOf, Trees.Roles;
    hide Matches, Creates, Builds, Registered, SlaveServers, Closes, SetsRunning, NoDts, Ids, StepsOf, Verifies;
    var masterSid := m.nextServerId;
    ghost var slots, bases;
    nodes, slots, bases := m.BuildSingle(name, itype, shard);
    var specs := SlaveSpecs(name, shard, nodes, masterSid);
    plan, level := CreateNodes2(name, network, nodes[0].container, specs, proxies, masterSid);
    SpecsAreRegistered(name, shard, nodes, masterSid, specs);
    SingleFits(name, shard, nodes, masterSid);
    BuildsMatches(plan, nodes, proxies);
  }

  lemma {:induction false} SpecsAreRegistered(
      name: string, shard: string, nodes: seq<InstNode>, masterSid: nat, specs: seq<SlaveSpec>)
    requires |nodes| > 0 && forall j :: 0 <= j < |nodes| ==> nodes[j] == SingleNode(name, masterSid, shard, j)
    requires |specs| == |nodes| - 1
    requires forall j :: 0 <= j < |specs| ==> specs[j] == SlaveSpec(nodes[j + 1].container, nodes[j + 1].serverId)
    ensures [Server(nodes[0].container, masterSid, None)] + SlaveServers(nodes[0].container, specs) == Registered(nodes)
  {
    assert ContainerOf(name, Slot(0, 0)) != "";
    hide ContainerOf;
  }

  lemma {:induction false} SingleFits(name: string, shard: string, nodes: seq<InstNode>, masterSid: nat)
    requires forall j :: 0 <= j < |nodes| ==> nodes[j] == SingleNode(name, masterSid, shard, j)
    ensures ParentsFit(nodes) && UniqueContainers(nodes)
  {
    assert ContainerOf(name, Slot(0, 0)) != "";
    hide ContainerOf;
    NamesAreUnique(name, nodes, seq(|nodes|, j requires 0 <= j < |nodes| => Slot(0, j)));
  }

  // ----- Several shards -----

  /** The records of a new instance with several shards, and the plan that builds it. */
  method PlanMulti(m: Manager, name: string, async: bool, shardN: nat, network: string, proxies: seq<string>)
    returns (nodes: seq<InstNode>, plan: Plan, ghost level: map<NodeId, nat>)
    requires shardN > 1 && |proxies| > 0
    modifies m
    ensures Matches(plan, nodes, proxies) && Creates(name, plan, level)
    ensures forall k :: 1 <= k <= shardN ==>
      Trees.ShardTree(nodes, ShardName(k), ContainerOf(name, Slot(k, 0)), Trees.FreshRoles(async))
    ensures |nodes| == if async then 3 * shardN else 2 * shardN
  {
    hide Named, ManyShards, Numbered, AtMostOneOfflinePerShard, Trees.ShardTree, ContainerOf, ShardName, Contiguous;
    hide Matches, Creates, Builds, Registered, AllServers, Closes, SetsRunning, NoDts, Ids, StepsOf, Strided, MultiNode;
    hide Verifies, MastersDiffer;
    var groups;
    ghost var slots, bases;
    nodes, groups, slots, bases := m.BuildMulti(name, async, shardN);
    plan, level := CreateNodesMulti(name, network, groups, proxies);
    MultiFits(name, nodes, slots, bases);
    GroupsDiffer(nodes, groups);
    BuildsMatches(plan, nodes, proxies);
  }

  lemma {:induction false} GroupsDiffer(nodes: seq<InstNode>, groups: seq<Group>)
    requires UniqueContainers(nodes) && AllServers(groups, |groups|) == Registered(nodes)
    ensures MastersDiffer(groups)
  {
    hide AllServers;
    RegisteredDiffer(nodes);
    forall i, j | 0 <= i < j < |groups| ensures groups[i].masterC != groups[j].masterC {
      var a, b := ShardsApart(groups, |groups|, i, j);
    }
  }

  /** The masters of two shards stand at different places of the list of all servers. */
  lemma {:induction false} ShardsApart(groups: seq<Group>, n: nat, i: nat, j: nat) returns (a: nat, b: nat)
    requires i < j < n <= |groups|
    ensures a < b < |AllServers(groups, n)|
    ensures AllServers(groups, n)[a].container == groups[i].masterC
    ensures AllServers(groups, n)[b].container == groups[j].masterC
    decreases n
  {
    if j == n - 1 {
      a := MasterPlaceOf(groups, n - 1, i);
      b := |AllServers(groups, n - 1)|;
    } else {
      a, b := ShardsApart(groups, n - 1, i, j);
    }
  }

  lemma {:induction false} MasterPlaceOf(groups: seq<Group>, n: nat, i: nat) returns (a: nat)
    requires i < n <= |groups|
    ensures a < |AllServers(groups, n)| && AllServers(groups, n)[a].container == groups[i].masterC
    decreases n
  {
    if i == n - 1 {
      a := |AllServers(groups, n - 1)|;
    } else {
      a := MasterPlaceOf(groups, n - 1, i);
    }
  }

  lemma {:induction false} MultiFits(name: string, nodes: seq<InstNode>, slots: seq<Slot>, bases: map<nat, nat>)
    requires Named(name, nodes, slots) && ManyShards(nodes, slots)
    requires forall j :: 0 <= j < |nodes| ==>
      slots[j].k in bases && nodes[j] == MultiNode(name, bases[slots[j].k], slots[j])
    ensures ParentsFit(nodes) && UniqueContainers(nodes)
  {
    hide ShardName;
    NamesAreUnique(name, nodes, slots);
    forall n | n in nodes ensures n.role == Master <==> n.parent == "" {
      var j :| 0 <= j < |nodes| && nodes[j] == n;
      assert ContainerOf(name, Slot(slots[j].k, 0)) != "";
    }
  }
}
