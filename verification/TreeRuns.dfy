/** Replication trees over the life of an instance: what src/instance.rs records of who follows whom stays a
    tree below one master over every run of scale-outs, switchovers and replacements. */
module TreeRuns {
  import opened Wrappers
  import opened Instance
  import opened Topology
  import opened Trees
  import Reparent

  /** The candidate of the latest switchover leads. */
  function RootAfter(ops: seq<Op>, root: string): string {
    if ops == [] then root
    else if ops[|ops| - 1].Switch? then ops[|ops| - 1].cand
    else RootAfter(ops[..|ops| - 1], root)
  }

  lemma {:induction false} OnlyOneMaster(nodes: seq<InstNode>, m: string, m': string)
    requires OneMaster(nodes, m) && OneMaster(nodes, m')
    ensures m == m'
  {
    var n :| n in nodes && n.container == m;
  }

  lemma {:induction false} SingleStepKeepsTree(
      name: string, shard: string, nodes: seq<InstNode>, slots: seq<Slot>, op: Op, nodes': seq<InstNode>, root: string)
    requires SoundSingle(name, shard, nodes, slots) && Reparent.RootedAt(nodes, root)
    requires SingleStep(name, shard, nodes, op, nodes') && UniqueContainers(nodes')
    ensures Reparent.RootedAt(nodes', if op.Switch? then op.cand else root)
  {
    hide SoundSingle, Reparent.Climbs, Reparent.Rewritten, OneMaster;
    match op
    case ScaleOut(role, _, a) =>
      hide MasterCount, FirstMaster;
      FirstMasterIsIt(nodes, root);
      RootIsInside(nodes, root);
      GrownTree(nodes, NewRecord(nodes, a, shard), root);
    case Switch(was, cand) =>
      OnlyOneMaster(nodes, was, root);
      Reparent.RerootsTree(nodes, was, cand);
    case Replace(j, hostPort) =>
      ReplacedStays(nodes, j, hostPort);
      SameTree(nodes, nodes', root);
  }

  /** One shard: over every run the records are a replication tree; its root is the candidate of the
      latest switchover, or else the master it was created with. */
  lemma {:induction false} SingleRunsStayTrees(
      name: string, shard: string, ops: seq<Op>, run: seq<seq<InstNode>>, slots: seq<Slot>, root: string, i: nat)
    requires SingleRun(name, shard, ops, run) && SoundSingle(name, shard, run[0], slots) && i < |run|
    requires Reparent.RootedAt(run[0], root)
    ensures Reparent.RootedAt(run[i], RootAfter(ops[..i], root))
  {
    hide SoundSingle, Reparent.RootedAt, SingleStep;
    if i > 0 {
      SingleRunsStayTrees(name, shard, ops, run, slots, root, i - 1);
      var before := SingleRunsStaySound(name, shard, ops, run, slots, i - 1);
      var _ := SingleRunsStaySound(name, shard, ops, run, slots, i);
      SingleStepKeepsTree(name, shard, run[i - 1], before, ops[i - 1], run[i], RootAfter(ops[..i - 1], root));
      assert ops[..i][..i - 1] == ops[..i - 1];
    }
  }

  // ----- Several shards -----

  /** A slave added to one shard hangs below that shard's own master. */
  lemma {:induction false} AddedBelowOwnMaster(
      name: string, nodes: seq<InstNode>, slots: seq<Slot>, role: Role, shard: string, a: Addition, def: string)
    requires SoundMany(name, nodes, slots) && exists x :: ShardAddition(name, nodes, role, shard, x, a)
    ensures ShardMaster(nodes, shard).Some?
    ensures var n, m := NewRecord(nodes, a, def), ShardMaster(nodes, shard).value;
      && n.shard == shard && n.parent == m.container && n.role != Master
      && m in nodes && m.shard == shard && m.role == Master
  {
    hide ManyShards, AtMostOneOfflinePerShard, ShardName, FirstMaster, MasterCount, ShardMaster;
    ShardMasterFound(nodes, shard);
    ShardIsNamed(name, nodes, slots, role, shard, a);
    var m := ShardMaster(nodes, shard).value;
    var j :| 0 <= j < |nodes| && nodes[j] == m;
    assert m.container != "";
  }

  lemma {:induction false} ShardIsNamed(
      name: string, nodes: seq<InstNode>, slots: seq<Slot>, role: Role, shard: string, a: Addition)
    requires SoundMany(name, nodes, slots) && exists x :: ShardAddition(name, nodes, role, shard, x, a)
    ensures shard != ""
  {
    hide SoundMany, ShardAddition;
    var k, next := AddedToShard(name, nodes, slots, role, shard, a);
    AddedContainer(name, nodes, role, k, next, a);
  }

  lemma {:induction false} ManyStepKeepsTree(
      name: string, def: string, nodes: seq<InstNode>, slots: seq<Slot>, op: Op, nodes': seq<InstNode>,
      shard: string, root: string)
    requires SoundMany(name, nodes, slots) && ManyStep(name, def, nodes, op, nodes') && UniqueContainers(nodes')
    requires Reparent.RootedAt(OfShard(nodes, shard), root)
    ensures Reparent.RootedAt(OfShard(nodes', shard), root)
  {
    hide SoundMany, Reparent.Climbs, OfShard, UniqueContainers, ShardAddition, NewRecord, ShardMaster;
    match op
    case ScaleOut(role, grown, a) =>
      var n := NewRecord(nodes, a, def);
      AddedBelowOwnMaster(name, nodes, slots, role, grown, a, def);
      OfShardAppend(nodes, [n], shard);
      OfShardUnique(nodes', shard);
      OfShardMembers(nodes, shard);
      if grown == shard {
        OfShardAll([n], shard);
        assert ShardMaster(nodes, shard).value in OfShard(nodes, shard);
        GrownTree(OfShard(nodes, shard), n, root);
      } else {
        OfShardNone([n], shard);
        assert OfShard(nodes', shard) == OfShard(nodes, shard);
      }
    case Replace(j, hostPort) =>
      ReplacedStays(nodes, j, hostPort);
      OfShardSame(nodes, nodes', shard);
      SameTree(OfShard(nodes, shard), OfShard(nodes', shard), root);
  }

  /** Several shards: over every run each shard stays a replication tree below its own master. */
  lemma {:induction false} ManyRunsStayTrees(
      name: string, def: string, ops: seq<Op>, run: seq<seq<InstNode>>, slots: seq<Slot>, i: nat, shard: string,
      root: string)
    requires ManyRun(name, def, ops, run) && i < |run|
    requires SoundMany(name, run[0], slots)
    requires Reparent.RootedAt(OfShard(run[0], shard), root)
    ensures Reparent.RootedAt(OfShard(run[i], shard), root)
  {
    hide SoundMany, Reparent.RootedAt, ManyStep;
    if i > 0 {
      ManyRunsStayTrees(name, def, ops, run, slots, i - 1, shard, root);
      var before := ManyRunsStaySound(name, def, ops, run, slots, map[], 0, i - 1);
      var _ := ManyRunsStaySound(name, def, ops, run, slots, map[], 0, i);
      ManyStepKeepsTree(name, def, run[i - 1], before, ops[i - 1], run[i], shard, root);
    }
  }
}
