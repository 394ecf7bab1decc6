/** Server ids of src/instance.rs: when the operations on an instance keep them distinct, and when not. */
module ServerIds {
  import opened Wrappers
  import opened Instance
  import opened Topology
  import opened Trees
  import Reparent

  ghost predicate DistinctIds(nodes: seq<InstNode>) {
    forall i, j :: 0 <= i < j < |nodes| ==> nodes[i].serverId != nodes[j].serverId
  }

  ghost predicate HasId(nodes: seq<InstNode>, x: nat) {
    exists n :: n in nodes && n.serverId == x
  }

  function MasterId(nodes: seq<InstNode>): nat {
    match FirstMaster(nodes)
    case None => 0
    case Some(m) => m.serverId
  }

  // ----- One operation -----

  /** A scale-out of an instance with one shard keeps the ids distinct if and only if no record holds the
      id that lies as far above the master's as there are records. */
  lemma {:induction false} ScaleOutKeepsIdsIff(
      name: string, shard: string, nodes: seq<InstNode>, slots: seq<Slot>, role: Role, a: Addition)
    requires SoundSingle(name, shard, nodes, slots) && SingleAddition(name, nodes, role, a)
    ensures DistinctIds(Append(nodes, a, shard)) <==> DistinctIds(nodes) && !HasId(nodes, MasterId(nodes) + |nodes|)
    ensures forall x: nat :: HasId(Append(nodes, a, shard), x) <==> HasId(nodes, x) || x == MasterId(nodes) + |nodes|
  {
    SingleScaleOutKeeps(name, shard, nodes, slots, role, a);
    AppendedIds(nodes, NewRecord(nodes, a, shard));
  }

  lemma {:induction false} AppendedIds(nodes: seq<InstNode>, n: InstNode)
    ensures DistinctIds(nodes + [n]) <==> DistinctIds(nodes) && !HasId(nodes, n.serverId)
    ensures forall x: nat :: HasId(nodes + [n], x) <==> HasId(nodes, x) || x == n.serverId
  {
    var longer := nodes + [n];
    assert forall m :: m in longer <==> m in nodes || m == n;
    if DistinctIds(longer) {
      forall i, j | 0 <= i < j < |nodes| ensures nodes[i].serverId != nodes[j].serverId {
        assert longer[i].serverId != longer[j].serverId;
      }
      forall m | m in nodes ensures m.serverId != n.serverId {
        var i :| 0 <= i < |nodes| && nodes[i] == m;
        assert longer[i].serverId != longer[|nodes|].serverId;
      }
    }
    if DistinctIds(nodes) && !HasId(nodes, n.serverId) {
      forall i, j | 0 <= i < j < |longer| ensures longer[i].serverId != longer[j].serverId {
        assert nodes[i] in nodes;
      }
    }
  }

  /** A switchover changes no id. */
  lemma {:induction false} SwitchKeepsIds(nodes: seq<InstNode>, was: string, cand: string)
    ensures var nodes' := Reparent.Rewritten(nodes, was, cand);
      (DistinctIds(nodes') <==> DistinctIds(nodes)) && forall x: nat :: HasId(nodes', x) <==> HasId(nodes, x)
  {
    var nodes' := Reparent.Rewritten(nodes, was, cand);
    hide Reparent.Rewritten;
    assert forall i :: 0 <= i < |nodes| ==> nodes'[i].serverId == nodes[i].serverId;
    forall x ensures HasId(nodes', x) <==> HasId(nodes, x) {
      if HasId(nodes', x) {
        var i :| 0 <= i < |nodes'| && nodes'[i].serverId == x;
        assert nodes[i] in nodes;
      }
      if HasId(nodes, x) {
        var i :| 0 <= i < |nodes| && nodes[i].serverId == x;
        assert nodes'[i] in nodes';
      }
    }
  }

  /** A scale-out of one shard of several: the same, counting from that shard's master. */
  lemma {:induction false} ShardScaleOutKeepsIdsIff(
      name: string, nodes: seq<InstNode>, role: Role, shard: string, next: nat, a: Addition, def: string)
    requires ShardAddition(name, nodes, role, shard, next, a)
    ensures var x := ShardMaster(nodes, shard).value.serverId + next;
      && (DistinctIds(Append(nodes, a, def)) <==> DistinctIds(nodes) && !HasId(nodes, x))
      && forall y: nat :: HasId(Append(nodes, a, def), y) <==> HasId(nodes, y) || y == x
  {
    hide DistinctIds, HasId;
    AppendedIds(nodes, NewRecord(nodes, a, def));
  }

  /** All ids but that of record `j` are distinct. */
  ghost predicate DistinctBut(nodes: seq<InstNode>, j: nat) {
    forall i, k :: 0 <= i < k < |nodes| && i != j && k != j ==> nodes[i].serverId != nodes[k].serverId
  }

  /** Replacing a node draws a fresh id, so it even resolves a collision of that node. */
  lemma {:induction false} ReplaceKeepsIdsIff(nodes: seq<InstNode>, j: nat, hostPort: nat)
    requires j < |nodes|
    ensures DistinctIds(Replaced(nodes, j, hostPort)) <==> DistinctBut(nodes, j)
  {
    hide MaxServerId;
    var nodes' := Replaced(nodes, j, hostPort);
    forall i | 0 <= i < |nodes| ensures nodes[i].serverId <= MaxServerId(nodes) {
      MaxIsAbove(nodes, i);
    }
    if DistinctIds(nodes') {
      forall i, k | 0 <= i < k < |nodes| && i != j && k != j ensures nodes[i].serverId != nodes[k].serverId {
        assert nodes'[i].serverId != nodes'[k].serverId;
      }
    }
  }

  lemma {:induction false} MaxIsAbove(nodes: seq<InstNode>, i: nat)
    requires i < |nodes|
    ensures nodes[i].serverId <= MaxServerId(nodes)
  {
    if i > 0 {
      MaxIsAbove(nodes[1..], i - 1);
    }
  }

  // ----- Runs, with replacements -----

  /** What an operation does to the ids, record by record. */
  ghost predicate IdStep(nodes: seq<InstNode>, op: Op, nodes': seq<InstNode>) {
    && |nodes'| == |nodes| + (if op.ScaleOut? then 1 else 0)
    && (op.ScaleOut? ==> nodes'[|nodes|].serverId == op.addition.serverId)
    && (op.Replace? ==> op.j < |nodes| && nodes'[op.j].serverId == MaxServerId(nodes) + 1)
    && forall i :: 0 <= i < |nodes| && !(op.Replace? && op.j == i) ==> nodes'[i].serverId == nodes[i].serverId
  }

  ghost predicate IdRun(ops: seq<Op>, run: seq<seq<InstNode>>) {
    && |run| == |ops| + 1
    && forall j, j' :: 0 <= j && j' == j + 1 && j' < |run| ==> IdStep(run[j], ops[j], run[j'])
  }

  lemma {:induction false} SingleStepIds(
      name: string, shard: string, nodes: seq<InstNode>, op: Op, nodes': seq<InstNode>)
    requires SingleStep(name, shard, nodes, op, nodes')
    ensures IdStep(nodes, op, nodes')
  {
    hide SingleAddition, MaxServerId, OneMaster;
  }

  lemma {:induction false} ManyStepIds(name: string, def: string, nodes: seq<InstNode>, op: Op, nodes': seq<InstNode>)
    requires ManyStep(name, def, nodes, op, nodes')
    ensures IdStep(nodes, op, nodes')
  {
    hide ShardAddition, MaxServerId;
  }

  lemma {:induction false} SingleRunIds(name: string, shard: string, ops: seq<Op>, run: seq<seq<InstNode>>)
    requires SingleRun(name, shard, ops, run)
    ensures IdRun(ops, run)
  {
    hide SingleStep, IdStep;
    forall j, j' | 0 <= j && j' == j + 1 && j' < |run| ensures IdStep(run[j], ops[j], run[j']) {
      SingleStepIds(name, shard, run[j], ops[j], run[j']);
    }
  }

  lemma {:induction false} ManyRunIds(name: string, def: string, ops: seq<Op>, run: seq<seq<InstNode>>)
    requires ManyRun(name, def, ops, run)
    ensures IdRun(ops, run)
  {
    hide ManyStep, IdStep;
    forall j, j' | 0 <= j && j' == j + 1 && j' < |run| ensures IdStep(run[j], ops[j], run[j']) {
      ManyStepIds(name, def, run[j], ops[j], run[j']);
    }
  }

  /** Record `j` is not replaced after step `q` and before step `i`. */
  ghost predicate Stays(ops: seq<Op>, j: nat, q: nat, i: nat) {
    i <= |ops| && forall r: nat :: q < r < i && ops[r].Replace? ==> ops[r].j != j
  }

  /** Scale-out `q` draws the id that record `j` holds at that moment, and neither of the two records has
      been replaced since. */
  ghost predicate Repeats(ops: seq<Op>, run: seq<seq<InstNode>>, q: nat, j: nat, i: nat) {
    && q < i <= |ops| < |run| && ops[q].ScaleOut? && j < |run[q]|
    && run[q][j].serverId == ops[q].addition.serverId
    && Stays(ops, j, q, i) && Stays(ops, |run[q]|, q, i)
  }

  lemma {:induction false} RecordsGrow(ops: seq<Op>, run: seq<seq<InstNode>>, q: nat, i: nat)
    requires IdRun(ops, run) && q <= i < |run|
    ensures |run[q]| <= |run[i]| && (q < i && ops[q].ScaleOut? ==> |run[q]| < |run[i]|)
    decreases i
  {
    if q < i {
      RecordsGrow(ops, run, q, i - 1);
      assert IdStep(run[i - 1], ops[i - 1], run[i]);
    }
  }

  /** Some scale-out has appended record `k` with the id of record `j`. */
  ghost predicate Paired(ops: seq<Op>, run: seq<seq<InstNode>>, j: nat, k: nat, i: nat) {
    exists q: nat :: q < |run| && |run[q]| == k && Repeats(ops, run, q, j, i)
  }

  lemma {:induction false} PairKeeps(ops: seq<Op>, run: seq<seq<InstNode>>, j: nat, k: nat, i: nat)
    requires IdRun(ops, run) && i < |ops| && j < k < |run[i]|
    ensures Paired(ops, run, j, k, i + 1) <==>
      Paired(ops, run, j, k, i) && !(ops[i].Replace? && ops[i].j in {j, k})
  {
    if Paired(ops, run, j, k, i) && !(ops[i].Replace? && ops[i].j in {j, k}) {
      var q: nat :| q < |run| && |run[q]| == k && Repeats(ops, run, q, j, i);
      assert Repeats(ops, run, q, j, i + 1);
    }
    if Paired(ops, run, j, k, i + 1) {
      var q: nat :| q < |run| && |run[q]| == k && Repeats(ops, run, q, j, i + 1);
      assert q != i;
      assert Repeats(ops, run, q, j, i);
      assert !(ops[i].Replace? && ops[i].j in {j, k});
    }
  }

  lemma {:induction false} PairBegins(ops: seq<Op>, run: seq<seq<InstNode>>, j: nat, i: nat)
    requires IdRun(ops, run) && i < |ops| && ops[i].ScaleOut? && j < |run[i]|
    ensures Paired(ops, run, j, |run[i]|, i + 1) <==> run[i][j].serverId == ops[i].addition.serverId
  {
    if run[i][j].serverId == ops[i].addition.serverId {
      assert Repeats(ops, run, i, j, i + 1);
    }
    if Paired(ops, run, j, |run[i]|, i + 1) {
      var q: nat :| q < |run| && |run[q]| == |run[i]| && Repeats(ops, run, q, j, i + 1);
      RecordsGrow(ops, run, q, i);
      assert q == i;
    }
  }

  /** Two records have the same id exactly if the later one was appended with it. */
  lemma {:induction false} SamePairIff(ops: seq<Op>, run: seq<seq<InstNode>>, j: nat, k: nat, i: nat)
    requires IdRun(ops, run) && i < |run| && DistinctIds(run[0]) && j < k < |run[i]|
    ensures run[i][j].serverId == run[i][k].serverId <==> Paired(ops, run, j, k, i)
    decreases i
  {
    hide Paired, MaxServerId;
    if i == 0 {
      NothingPaired(ops, run, j, k);
    } else {
      var before, op := run[i - 1], ops[i - 1];
      assert IdStep(before, op, run[i]);
      if k == |before| {
        PairBegins(ops, run, j, i - 1);
      } else {
        SamePairIff(ops, run, j, k, i - 1);
        PairKeeps(ops, run, j, k, i - 1);
        MaxIsAbove(before, j);
        MaxIsAbove(before, k);
      }
    }
  }

  lemma {:induction false} NothingPaired(ops: seq<Op>, run: seq<seq<InstNode>>, j: nat, k: nat)
    ensures !Paired(ops, run, j, k, 0)
  {
  }

  /** Over every run of scale-outs, switchovers and replacements, of an instance with one shard or with
      several: the ids are distinct after `i` steps if and only if no scale-out among these steps has drawn
      an id that a record held at that moment, unless one of the two has been replaced since. */
  lemma {:induction false} RunKeepsIdsIff(ops: seq<Op>, run: seq<seq<InstNode>>, i: nat)
    requires IdRun(ops, run) && i < |run| && DistinctIds(run[0])
    ensures DistinctIds(run[i]) <==> forall q: nat, j: nat :: !Repeats(ops, run, q, j, i)
  {
    hide IdRun, Repeats;
    if q: nat, j: nat :| Repeats(ops, run, q, j, i) {
      RepeatIsPair(ops, run, q, j, i);
      SamePairIff(ops, run, j, |run[q]|, i);
    }
    if !DistinctIds(run[i]) {
      var j, k :| 0 <= j < k < |run[i]| && run[i][j].serverId == run[i][k].serverId;
      SamePairIff(ops, run, j, k, i);
    }
  }

  lemma {:induction false} RepeatIsPair(ops: seq<Op>, run: seq<seq<InstNode>>, q: nat, j: nat, i: nat)
    requires IdRun(ops, run) && Repeats(ops, run, q, j, i)
    ensures q < |run| && i < |run| && j < |run[q]| < |run[i]| && Paired(ops, run, j, |run[q]|, i)
  {
    RecordsGrow(ops, run, q, i);
  }

  // ----- Runs of an instance with one shard, nothing replaced -----

  function ScaleOuts(ops: seq<Op>): nat {
    if ops == [] then 0 else ScaleOuts(ops[..|ops| - 1]) + if ops[|ops| - 1].ScaleOut? then 1 else 0
  }

  lemma {:induction false} ScaleOutsSplit(ops: seq<Op>, p: nat, q: nat)
    requires p <= q <= |ops|
    ensures ScaleOuts(ops[..q]) == ScaleOuts(ops[..p]) + ScaleOuts(ops[p..q])
    decreases q
  {
    if p < q {
      ScaleOutsSplit(ops, p, q - 1);
      assert ops[..q][..q - 1] == ops[..q - 1] && ops[p..q][..q - p - 1] == ops[p..q - 1];
    }
  }

  /** The master's id drops from scale-out `p` to scale-out `q` by the number of scale-outs between them. */
  ghost predicate Drops(ops: seq<Op>, run: seq<seq<InstNode>>, p: nat, q: nat) {
    && p < q < |ops| < |run| && ops[p].ScaleOut? && ops[q].ScaleOut?
    && MasterId(run[p]) == MasterId(run[q]) + ScaleOuts(ops[p..q])
  }

  /** Scale-out `p` draws the id `x`. */
  ghost predicate Draws(ops: seq<Op>, run: seq<seq<InstNode>>, p: nat, x: nat) {
    p < |ops| < |run| && ops[p].ScaleOut? && x == MasterId(run[p]) + |run[p]|
  }

  /** What one step of a run does to the ids. */
  lemma {:induction false} StepIds(
      name: string, shard: string, nodes: seq<InstNode>, slots: seq<Slot>, op: Op, nodes': seq<InstNode>)
    requires SoundSingle(name, shard, nodes, slots) && SingleStep(name, shard, nodes, op, nodes') && !op.Replace?
    ensures |nodes'| == |nodes| + if op.ScaleOut? then 1 else 0
    ensures forall x: nat :: HasId(nodes', x) <==> HasId(nodes, x) || (op.ScaleOut? && x == MasterId(nodes) + |nodes|)
    ensures DistinctIds(nodes') <==> DistinctIds(nodes) && (op.ScaleOut? ==> !HasId(nodes, MasterId(nodes) + |nodes|))
    ensures HasId(nodes, MasterId(nodes))
  {
    hide SoundSingle, SingleAddition;
    match op
    case ScaleOut(role, _, a) =>
      ScaleOutKeepsIdsIff(name, shard, nodes, slots, role, a);
      assert FirstMaster(nodes).Some? by {
        MasterIsThere(name, nodes, role, a);
      }
      Reparent.FirstMasterMember(nodes);
    case Switch(was, cand) =>
      SwitchKeepsIds(nodes, was, cand);
      FirstMasterIsIt(nodes, was);
  }

  lemma {:induction false} MasterIsThere(name: string, nodes: seq<InstNode>, role: Role, a: Addition)
    requires SingleAddition(name, nodes, role, a)
    ensures FirstMaster(nodes).Some?
  {
  }

  /** The ids after `i` steps: the initial ones, below `limit`, and those drawn, not below it. */
  ghost predicate IdsAfter(ops: seq<Op>, run: seq<seq<InstNode>>, base: nat, limit: nat, i: nat)
    requires i < |run|
  {
    && |run[i]| == limit - base + ScaleOuts(if i <= |ops| then ops[..i] else [])
    && (forall x: nat :: HasId(run[i], x) ==>
         x >= base && (x < limit || exists p: nat :: p < i && Draws(ops, run, p, x)))
    && (forall p: nat, x: nat :: p < i && Draws(ops, run, p, x) ==> HasId(run[i], x) && x >= limit)
  }

  lemma {:induction false} RunIds(
      name: string, shard: string, ops: seq<Op>, run: seq<seq<InstNode>>, slots: seq<Slot>, base: nat, i: nat)
    requires SingleRun(name, shard, ops, run) && i < |run| && SoundSingle(name, shard, run[0], slots)
    requires CountsFrom(base, run[0], slots) && NothingReplaced(ops)
    ensures IdsAfter(ops, run, base, base + |run[0]|, i)
  {
    hide ContainerOf, FirstMaster, SoundSingle, HasId, MasterId, SingleStep, CountsFrom;
    var limit := base + |run[0]|;
    if i == 0 {
      CountedAreDistinct(name, shard, run[0], slots, base);
      InitialIds(run[0], base);
      assert ops[..0] == [];
    } else {
      RunIds(name, shard, ops, run, slots, base, i - 1);
      var before := SingleRunsStaySound(name, shard, ops, run, slots, i - 1);
      StepIds(name, shard, run[i - 1], before, ops[i - 1], run[i]);
      assert ops[..i][..i - 1] == ops[..i - 1];
      var drawn := MasterId(run[i - 1]) + |run[i - 1]|;
      assert drawn >= limit;
      assert ops[i - 1].ScaleOut? ==> Draws(ops, run, i - 1, drawn);
    }
  }

  lemma {:induction false} InitialIds(nodes: seq<InstNode>, base: nat)
    requires forall n :: n in nodes ==> base <= n.serverId < base + |nodes|
    ensures forall x: nat :: HasId(nodes, x) ==> base <= x < base + |nodes|
  {
  }

  /** Two scale-outs draw the same id exactly if the master's id drops between them by their distance. */
  lemma {:induction false} SameDrawIff(
      ops: seq<Op>, run: seq<seq<InstNode>>, base: nat, limit: nat, p: nat, q: nat)
    requires p < q < |ops| < |run| && ops[p].ScaleOut? && ops[q].ScaleOut?
    requires IdsAfter(ops, run, base, limit, p) && IdsAfter(ops, run, base, limit, q)
    ensures Draws(ops, run, p, MasterId(run[q]) + |run[q]|) <==> Drops(ops, run, p, q)
  {
    ScaleOutsSplit(ops, p, q);
  }

  /** Over every run of scale-outs and switchovers alone, of an instance that starts out counting from its base:
      the ids are distinct after `i` steps if and only if among these steps there are no two scale-outs
      between which the master's id drops by exactly the number of scale-outs from the first to the
      second. */
  lemma {:induction false} SwitchesKeepIdsIff(
      name: string, shard: string, ops: seq<Op>, run: seq<seq<InstNode>>, slots: seq<Slot>, base: nat, i: nat)
    requires SingleRun(name, shard, ops, run) && i < |run| && SoundSingle(name, shard, run[0], slots)
    requires CountsFrom(base, run[0], slots) && NothingReplaced(ops)
    ensures DistinctIds(run[i]) <==> forall p: nat, q: nat :: q < i ==> !Drops(ops, run, p, q)
  {
    hide ContainerOf, FirstMaster, SoundSingle, HasId, MasterId, SingleStep, CountsFrom, DistinctIds, IdsAfter, Drops;
    if i == 0 {
      CountedAreDistinct(name, shard, run[0], slots, base);
    } else {
      SwitchesKeepIdsIff(name, shard, ops, run, slots, base, i - 1);
      var before := SingleRunsStaySound(name, shard, ops, run, slots, i - 1);
      StepIds(name, shard, run[i - 1], before, ops[i - 1], run[i]);
      NewDrawIff(name, shard, ops, run, slots, base, i - 1);
    }
  }

  lemma {:induction false} NewDrawIff(
      name: string, shard: string, ops: seq<Op>, run: seq<seq<InstNode>>, slots: seq<Slot>, base: nat, q: nat)
    requires SingleRun(name, shard, ops, run) && q < |ops| && SoundSingle(name, shard, run[0], slots)
    requires CountsFrom(base, run[0], slots) && NothingReplaced(ops)
    ensures (ops[q].ScaleOut? ==> !HasId(run[q], MasterId(run[q]) + |run[q]|))
      <==> forall p: nat :: !Drops(ops, run, p, q)
  {
    hide ContainerOf, FirstMaster, SoundSingle, HasId, MasterId, SingleStep, CountsFrom;
    var limit := base + |run[0]|;
    RunIds(name, shard, ops, run, slots, base, q);
    if ops[q].ScaleOut? {
      var x := MasterId(run[q]) + |run[q]|;
      assert x >= limit by {
        var before := SingleRunsStaySound(name, shard, ops, run, slots, q);
        StepIds(name, shard, run[q], before, ops[q], run[q + 1]);
      }
      forall p: nat | p < q && ops[p].ScaleOut? ensures Draws(ops, run, p, x) <==> Drops(ops, run, p, q) {
        RunIds(name, shard, ops, run, slots, base, p);
        SameDrawIff(ops, run, base, limit, p, q);
      }
    }
  }

  // ----- Runs of an instance with several shards -----

  /** Every shard but the last has at most nine slaves. */
  ghost predicate RoomBetween(slots: seq<Slot>, n: nat) {
    forall s :: s in slots && s.k < n ==> s.i <= 9
  }

  /** With bases ten apart and slave numbers without a gap, ids are distinct if and only if every shard
      but the last has at most nine slaves. */
  lemma {:induction false} ShardIdsIff(
      name: string, nodes: seq<InstNode>, slots: seq<Slot>, bases: map<nat, nat>, free: nat, first: nat, n: nat)
    requires SoundMany(name, nodes, slots) && Numbered(nodes, slots, bases, free)
    requires Strided(bases, first, n) && Contiguous(slots, n)
    ensures DistinctIds(nodes) <==> RoomBetween(slots, n)
  {
    hide SoundMany, Numbered, Strided, Contiguous;
    if RoomBetween(slots, n) {
      forall i, j | 0 <= i < j < |nodes| ensures nodes[i].serverId != nodes[j].serverId {
        ShardIdAt(name, nodes, slots, bases, free, first, n, i);
        ShardIdAt(name, nodes, slots, bases, free, first, n, j);
        PlacesDiffer(name, nodes, slots, i, j);
      }
    } else {
      var s :| s in slots && s.k < n && s.i > 9;
      AllBelow(slots, n, s, 10);
      FirstOfNext(slots, n, s);
      var i :| 0 <= i < |slots| && slots[i] == Slot(s.k, 10);
      var j :| 0 <= j < |slots| && slots[j] == Slot(s.k + 1, 0);
      ShardIdAt(name, nodes, slots, bases, free, first, n, i);
      ShardIdAt(name, nodes, slots, bases, free, first, n, j);
    }
  }

  lemma {:induction false} ShardIdAt(
      name: string, nodes: seq<InstNode>, slots: seq<Slot>, bases: map<nat, nat>, free: nat, first: nat, n: nat, j: nat)
    requires SoundMany(name, nodes, slots) && Numbered(nodes, slots, bases, free)
    requires Strided(bases, first, n) && Contiguous(slots, n) && (j < |nodes| || j < |slots|)
    ensures |nodes| == |slots| && slots[j] in slots && 1 <= slots[j].k <= n
    ensures nodes[j].serverId == first + 10 * (slots[j].k - 1) + slots[j].i
  {
    hide ManyShards, AtMostOneOfflinePerShard, Named;
  }

  lemma {:induction false} PlacesDiffer(name: string, nodes: seq<InstNode>, slots: seq<Slot>, i: nat, j: nat)
    requires SoundMany(name, nodes, slots) && i < j < |nodes|
    ensures |slots| == |nodes| && slots[i] != slots[j]
  {
    hide ManyShards, AtMostOneOfflinePerShard;
  }

  lemma {:induction false} FirstOfNext(slots: seq<Slot>, n: nat, s: Slot)
    requires Contiguous(slots, n) && s in slots && s.k < n
    ensures Slot(s.k + 1, 0) in slots
  {
  }

  lemma {:induction false} AllBelow(slots: seq<Slot>, n: nat, s: Slot, i: nat)
    requires Contiguous(slots, n) && s in slots && i <= s.i
    ensures Slot(s.k, i) in slots
    decreases s.i
  {
    if i < s.i {
      AllBelow(slots, n, Slot(s.k, s.i - 1), i);
    }
  }

  /** Over every run of scale-outs of an instance with `n` shards as it is created, nothing replaced. */
  lemma {:induction false} ManyRunsIdsIff(
      name: string, def: string, ops: seq<Op>, run: seq<seq<InstNode>>, slots: seq<Slot>,
      bases: map<nat, nat>, free: nat, first: nat, n: nat, i: nat)
      returns (slots': seq<Slot>)
    requires ManyRun(name, def, ops, run) && i < |run|
    requires SoundMany(name, run[0], slots) && Numbered(run[0], slots, bases, free)
    requires Strided(bases, first, n) && Contiguous(slots, n) && NothingReplaced(ops)
    ensures SoundMany(name, run[i], slots') && Contiguous(slots', n) && Numbered(run[i], slots', bases, free)
    ensures DistinctIds(run[i]) <==> RoomBetween(slots', n)
  {
    slots' := ManyRunsStaySound(name, def, ops, run, slots, bases, free, i);
    ShardIdsIff(name, run[i], slots', bases, free, first, n);
  }

  // ----- Counting from the base -----

  lemma {:induction false} FirstMasterOfAppend(nodes: seq<InstNode>, n: InstNode)
    requires FirstMaster(nodes).Some?
    ensures FirstMaster(nodes + [n]) == FirstMaster(nodes)
  {
    if nodes[0].role != Master {
      FirstMasterOfAppend(nodes[1..], n);
      assert (nodes + [n])[1..] == nodes[1..] + [n];
    }
  }

  ghost predicate CountsFrom(base: nat, nodes: seq<InstNode>, slots: seq<Slot>) {
    && Numbered(nodes, slots, map[0 := base], base + 10)
    && FirstMaster(nodes).Some? && FirstMaster(nodes).value.serverId == base
  }

  lemma {:induction false} SingleScaleOutCounts(
      name: string, shard: string, nodes: seq<InstNode>, slots: seq<Slot>, base: nat, role: Role, a: Addition)
    requires SoundSingle(name, shard, nodes, slots) && CountsFrom(base, nodes, slots)
    requires SingleAddition(name, nodes, role, a)
    ensures SoundSingle(name, shard, Append(nodes, a, shard), slots + [Slot(0, |nodes|)])
    ensures CountsFrom(base, Append(nodes, a, shard), slots + [Slot(0, |nodes|)])
  {
    hide SoundSingle, SingleAddition, ContainerOf;
    SingleScaleOutKeeps(name, shard, nodes, slots, role, a);
    var n := NewRecord(nodes, a, shard);
    FirstMasterOfAppend(nodes, n);
    NumberedAppended(nodes, slots, map[0 := base], base + 10, n, Slot(0, |nodes|));
  }

  /** As long as no switchover happens, an instance with one shard keeps counting from its base, and
      its server ids stay distinct, for any number of slaves. */
  lemma {:induction false} SingleScaleOutsKeepIdsUnique(
      name: string, shard: string, ops: seq<Op>, run: seq<seq<InstNode>>, slots: seq<Slot>, base: nat, i: nat)
      returns (slots': seq<Slot>)
    requires SingleRun(name, shard, ops, run) && i < |run| && SoundSingle(name, shard, run[0], slots)
    requires CountsFrom(base, run[0], slots) && forall op :: op in ops ==> op.ScaleOut?
    ensures SoundSingle(name, shard, run[i], slots') && CountsFrom(base, run[i], slots')
    ensures DistinctIds(run[i])
  {
    hide ContainerOf, Append, SingleAddition, FirstMaster;
    if i == 0 {
      slots' := slots;
    } else {
      var before := SingleScaleOutsKeepIdsUnique(name, shard, ops, run, slots, base, i - 1);
      var nodes, op := run[i - 1], ops[i - 1];
      assert op in ops && SingleStep(name, shard, nodes, op, run[i]);
      SingleScaleOutCounts(name, shard, nodes, before, base, op.role, op.addition);
      slots' := before + [Slot(0, |nodes|)];
    }
    CountedAreDistinct(name, shard, run[i], slots', base);
  }

  lemma {:induction false} CountedAreDistinct(
      name: string, shard: string, nodes: seq<InstNode>, slots: seq<Slot>, base: nat)
    requires SoundSingle(name, shard, nodes, slots) && CountsFrom(base, nodes, slots)
    ensures DistinctIds(nodes)
    ensures forall n :: n in nodes ==> base <= n.serverId < base + |nodes|
  {
    hide ContainerOf, FirstMaster;
    forall i, j | 0 <= i < j < |nodes| ensures nodes[i].serverId != nodes[j].serverId {
      assert slots[i] != slots[j] && slots[i].k == slots[j].k == 0;
    }
  }

  lemma {:induction false} FirstMasterAt(nodes: seq<InstNode>, n: InstNode)
    requires OneMaster(nodes, n.container) && n in nodes
    ensures FirstMaster(nodes) == Some(n)
  {
    FirstMasterIsIt(nodes, n.container);
  }

  /** A switchover to the first slave, a scale-out, the switchover back and another scale-out always
      draw the same server id twice: the first counts from the promoted slave, the second from the old
      master. */
  lemma {:induction false} SwitchingBetweenScaleOutsRepeatsIds(
      name: string, shard: string, nodes: seq<InstNode>, slots: seq<Slot>, m: InstNode, s1: InstNode, role: Role,
      a: Addition, role': Role, a': Addition)
    requires SoundSingle(name, shard, nodes, slots) && OneMaster(nodes, m.container)
    requires m in nodes && s1 in nodes && s1.container != m.container && s1.serverId == m.serverId + 1
    requires SingleAddition(name, Reparent.Rewritten(nodes, m.container, s1.container), role, a)
    requires var grown := Append(Reparent.Rewritten(nodes, m.container, s1.container), a, shard);
      SingleAddition(name, Reparent.Rewritten(grown, s1.container, m.container), role', a')
    ensures a.serverId == a'.serverId
  {
    hide ContainerOf, SingleAddition, Append, OneMaster;
    var once := Reparent.Rewritten(nodes, m.container, s1.container);
    var grown := Append(once, a, shard);
    IdAfterSwitch(name, shard, nodes, slots, m.container, s1, role, a);
    MasterMoved(name, shard, nodes, slots, m, s1);
    SingleScaleOutKeeps(name, shard, once, slots, role, a);
    var m' := MasterInGrown(name, shard, nodes, slots, m, s1, role, a);
    IdAfterSwitch(name, shard, grown, slots + [Slot(0, |once|)], s1.container, m', role', a');
  }

  lemma {:induction false} MasterMoved(
      name: string, shard: string, nodes: seq<InstNode>, slots: seq<Slot>, m: InstNode, s1: InstNode)
    requires SoundSingle(name, shard, nodes, slots) && OneMaster(nodes, m.container) && s1 in nodes
    requires s1.container != m.container
    ensures var once := Reparent.Rewritten(nodes, m.container, s1.container);
      SoundSingle(name, shard, once, slots) && OneMaster(once, s1.container)
  {
    SwitchKeeps(name, shard, nodes, slots, m.container, s1.container);
    SwitchMovesMaster(shard, nodes, m.container, s1.container);
  }

  lemma {:induction false} MasterInGrown(
      name: string, shard: string, nodes: seq<InstNode>, slots: seq<Slot>, m: InstNode, s1: InstNode, role: Role,
      a: Addition)
    returns (m': InstNode)
    requires SoundSingle(name, shard, nodes, slots) && OneMaster(nodes, m.container)
    requires m in nodes && s1 in nodes && s1.container != m.container
    requires SingleAddition(name, Reparent.Rewritten(nodes, m.container, s1.container), role, a)
    ensures var grown := Append(Reparent.Rewritten(nodes, m.container, s1.container), a, shard);
      m' in grown && m'.container == m.container && m'.serverId == m.serverId
      && OneMaster(grown, s1.container) && |grown| == |nodes| + 1
  {
    var once := Reparent.Rewritten(nodes, m.container, s1.container);
    var i :| 0 <= i < |nodes| && nodes[i] == m;
    MasterMoved(name, shard, nodes, slots, m, s1);
    hide ContainerOf, OneMaster;
    SingleScaleOutKeeps(name, shard, once, slots, role, a);
    NamesAreUnique(name, Append(once, a, shard), slots + [Slot(0, |once|)]);
    MasterStays(once, NewRecord(once, a, shard), s1.container);
    m' := once[i];
    assert Append(once, a, shard)[i] == m';
  }

  lemma {:induction false} IdAfterSwitch(
      name: string, shard: string, nodes: seq<InstNode>, slots: seq<Slot>, was: string, cand: InstNode, role: Role,
      a: Addition)
    requires SoundSingle(name, shard, nodes, slots) && OneMaster(nodes, was) && cand in nodes && cand.container != was
    requires SingleAddition(name, Reparent.Rewritten(nodes, was, cand.container), role, a)
    ensures a.serverId == cand.serverId + |nodes|
  {
    hide ContainerOf;
    var nodes' := Reparent.Rewritten(nodes, was, cand.container);
    SwitchKeeps(name, shard, nodes, slots, was, cand.container);
    SwitchMovesMaster(shard, nodes, was, cand.container);
    SingleScaleOutKeeps(name, shard, nodes', slots, role, a);
    var i :| 0 <= i < |nodes| && nodes[i] == cand;
    assert nodes'[i] in nodes' && nodes'[i].container == cand.container;
    FirstMasterAt(nodes', nodes'[i]);
  }

  lemma {:induction false} MaxIs(nodes: seq<InstNode>, top: nat)
    requires forall n :: n in nodes ==> n.serverId <= top
    requires exists n :: n in nodes && n.serverId == top
    ensures MaxServerId(nodes) == top
  {
    var n :| n in nodes && n.serverId == top;
    assert nodes[0] in nodes;
    if exists m :: m in nodes[1..] && m.serverId == top {
      MaxIs(nodes[1..], top);
    } else {
      assert nodes == [nodes[0]] + nodes[1..];
      MaxAtMost(nodes[1..], top);
    }
  }

  lemma {:induction false} MaxAtMost(nodes: seq<InstNode>, top: nat)
    requires forall n :: n in nodes ==> n.serverId <= top
    ensures MaxServerId(nodes) <= top
  {
    if nodes != [] {
      assert nodes[0] in nodes;
      MaxAtMost(nodes[1..], top);
    }
  }

  /** `n` distinct numbers below `n` include the largest one. */
  lemma {:induction false} LargestIsTaken(slots: seq<Slot>, n: nat)
    requires n > 0 && |slots| == n && forall i, j :: 0 <= i < j < n ==> slots[i] != slots[j]
    requires forall j :: 0 <= j < n ==> slots[j].k == 0 && slots[j].i < n
    ensures exists j :: 0 <= j < n && slots[j].i == n - 1
  {
    if forall j :: 0 <= j < n ==> slots[j].i < n - 1 {
      DistinctFit(slots, n - 1);
    }
  }

  lemma {:induction false} DistinctFit(slots: seq<Slot>, bound: nat)
    requires forall i, j :: 0 <= i < j < |slots| ==> slots[i] != slots[j]
    requires forall j :: 0 <= j < |slots| ==> slots[j].k == 0 && slots[j].i < bound
    ensures |slots| <= bound
    decreases bound
  {
    if bound == 0 {
      assert |slots| == 0 || slots[0].i < 0;
    } else if j :| 0 <= j < |slots| && slots[j].i == bound - 1 {
      var rest := slots[..j] + slots[j + 1..];
      forall i | 0 <= i < |rest| ensures rest[i].k == 0 && rest[i].i < bound - 1 {
        assert rest[i] == slots[if i < j then i else i + 1];
      }
      DistinctFit(rest, bound - 1);
    } else {
      DistinctFit(slots, bound - 1);
    }
  }

  lemma {:induction false} CountedMax(
      name: string, shard: string, nodes: seq<InstNode>, slots: seq<Slot>, base: nat)
    requires SoundSingle(name, shard, nodes, slots) && CountsFrom(base, nodes, slots)
    ensures |nodes| > 0 && MaxServerId(nodes) == base + |nodes| - 1
  {
    hide ContainerOf;
    var m :| OneMaster(nodes, m);
    LargestIsTaken(slots, |nodes|);
    var t :| 0 <= t < |nodes| && slots[t].i == |nodes| - 1;
    assert nodes[t] in nodes;
    MaxIs(nodes, base + |nodes| - 1);
  }

  /** Replacing a slave of an instance that still counts from its base always sets up a collision: the
      next scale-out draws the replaced node's server id. */
  lemma {:induction false} ReplaceThenScaleOutCollides(
      name: string, shard: string, nodes: seq<InstNode>, slots: seq<Slot>, base: nat, j: nat, hostPort: nat,
      role: Role, a: Addition)
    requires SoundSingle(name, shard, nodes, slots) && CountsFrom(base, nodes, slots)
    requires j < |nodes| && nodes[j].role != Master && SingleAddition(name, Replaced(nodes, j, hostPort), role, a)
    ensures a.serverId == Replaced(nodes, j, hostPort)[j].serverId
  {
    hide ContainerOf, MaxServerId, Named, Numbered;
    CountedMax(name, shard, nodes, slots, base);
    var m :| OneMaster(nodes, m);
    var nodes' := Replaced(nodes, j, hostPort);
    ReplacedStays(nodes, j, hostPort);
    SameMaster(nodes, nodes', m);
    OneMasterCounts(nodes', m);
    SameFirstMaster(nodes, nodes');
  }

  lemma {:induction false} SameFirstMaster(nodes: seq<InstNode>, nodes': seq<InstNode>)
    requires |nodes'| == |nodes| && FirstMaster(nodes).Some?
    requires forall i :: 0 <= i < |nodes| ==>
      nodes'[i].role == nodes[i].role && (nodes[i].role == Master ==> nodes'[i].serverId == nodes[i].serverId)
    ensures FirstMaster(nodes').Some? && FirstMaster(nodes').value.serverId == FirstMaster(nodes).value.serverId
  {
    if nodes[0].role != Master {
      SameFirstMaster(nodes[1..], nodes'[1..]);
    }
  }

  // ----- Which servers start writable -----

  /** `mysql_args` starts a server read-only unless its server id ends in 1. */
  predicate StartsWritable(serverId: nat) {
    serverId % 10 == 1
  }

  lemma {:induction false} WritableAt(base: nat, i: nat)
    requires StartsWritable(base)
    ensures StartsWritable(base + i) <==> i % 10 == 0
  {
  }

  /** "Exactly the masters start writable" holds if and only if every shard's base ends in 1 and no slave
      has a number divisible by ten. */
  lemma {:induction false} MastersStartWritableIff(
      nodes: seq<InstNode>, slots: seq<Slot>, bases: map<nat, nat>, next: nat)
    requires Numbered(nodes, slots, bases, next)
    requires forall k :: k in bases ==> Slot(k, 0) in slots
    ensures (forall j :: 0 <= j < |nodes| ==> (StartsWritable(nodes[j].serverId) <==> slots[j].i == 0)) <==>
      && (forall k :: k in bases ==> StartsWritable(bases[k]))
      && forall s :: s in slots && s.i > 0 ==> s.i % 10 != 0
  {
    hide Numbered, StartsWritable;
    assert |slots| == |nodes| by {
      IdOfPlace(nodes, slots, bases, next, 0);
    }
    if (forall k :: k in bases ==> StartsWritable(bases[k])) && forall s :: s in slots && s.i > 0 ==> s.i % 10 != 0 {
      forall j | 0 <= j < |nodes| ensures StartsWritable(nodes[j].serverId) <==> slots[j].i == 0 {
        IdOfPlace(nodes, slots, bases, next, j);
        WritableAt(bases[slots[j].k], slots[j].i);
        assert slots[j] in slots;
      }
    }
    if forall j :: 0 <= j < |nodes| ==> (StartsWritable(nodes[j].serverId) <==> slots[j].i == 0) {
      forall k | k in bases ensures StartsWritable(bases[k]) {
        var j :| 0 <= j < |slots| && slots[j] == Slot(k, 0);
        IdOfPlace(nodes, slots, bases, next, j);
      }
      forall s | s in slots && s.i > 0 ensures s.i % 10 != 0 {
        var j :| 0 <= j < |slots| && slots[j] == s;
        IdOfPlace(nodes, slots, bases, next, j);
        WritableAt(bases[s.k], s.i);
      }
    }
  }

  lemma {:induction false} IdOfPlace(
      nodes: seq<InstNode>, slots: seq<Slot>, bases: map<nat, nat>, next: nat, j: nat)
    requires Numbered(nodes, slots, bases, next)
    ensures |slots| == |nodes|
    ensures j < |nodes| ==> slots[j].k in bases && nodes[j].serverId == bases[slots[j].k] + slots[j].i
  {
  }

  /** When the slave that a scale-out adds starts writable. */
  lemma {:induction false} ScaleOutStartsWritableIff(
      name: string, shard: string, nodes: seq<InstNode>, slots: seq<Slot>, role: Role, a: Addition)
    requires SoundSingle(name, shard, nodes, slots) && SingleAddition(name, nodes, role, a)
    ensures StartsWritable(a.serverId) <==> (MasterId(nodes) + |nodes|) % 10 == 1
  {
    hide SoundSingle, SingleAddition, FirstMaster;
    assert FirstMaster(nodes).Some? by {
      MasterIsThere(name, nodes, role, a);
    }
    SingleScaleOutKeeps(name, shard, nodes, slots, role, a);
  }

  /** The same for one shard of several. */
  lemma {:induction false} ShardScaleOutStartsWritableIff(
      name: string, nodes: seq<InstNode>, role: Role, shard: string, next: nat, a: Addition)
    requires ShardAddition(name, nodes, role, shard, next, a)
    ensures StartsWritable(a.serverId) <==> (ShardMaster(nodes, shard).value.serverId + next) % 10 == 1
  {
  }

  /** As long as an instance with one shard counts from a base that ends in 1, the slave with every tenth
      number starts writable, whether it is added or takes the place of a replaced one. */
  lemma {:induction false} EveryTenthStartsWritable(
      name: string, shard: string, nodes: seq<InstNode>, slots: seq<Slot>, base: nat, role: Role, a: Addition,
      j: nat, hostPort: nat)
    requires SoundSingle(name, shard, nodes, slots) && CountsFrom(base, nodes, slots) && StartsWritable(base)
    requires SingleAddition(name, nodes, role, a) && j < |nodes|
    ensures StartsWritable(a.serverId) <==> |nodes| % 10 == 0
    ensures StartsWritable(Replaced(nodes, j, hostPort)[j].serverId) <==> |nodes| % 10 == 0
  {
    hide SoundSingle, SingleAddition, StartsWritable, MaxServerId;
    SingleScaleOutKeeps(name, shard, nodes, slots, role, a);
    CountedMax(name, shard, nodes, slots, base);
    WritableAt(base, |nodes|);
  }

  lemma {:induction false} AllTaken(slots: seq<Slot>, n: nat, i: nat)
    requires i < n && |slots| == n && forall a, b :: 0 <= a < b < n ==> slots[a] != slots[b]
    requires forall j :: 0 <= j < n ==> slots[j].k == 0 && slots[j].i < n
    ensures Slot(0, i) in slots
    decreases n
  {
    LargestIsTaken(slots, n);
    var j :| 0 <= j < n && slots[j].i == n - 1;
    assert slots[j] == Slot(0, n - 1);
    if i < n - 1 {
      var rest := slots[..j] + slots[j + 1..];
      forall b | 0 <= b < |rest| ensures rest[b].k == 0 && rest[b].i < n - 1 && rest[b] in slots {
        assert rest[b] == slots[if b < j then b else b + 1];
      }
      AllTaken(rest, n - 1, i);
    }
  }

  /** Over every run of scale-outs of an instance with one shard: exactly the master starts writable if and
      only if the base ends in 1 and there are at most nine slaves. */
  lemma {:induction false} SingleRunsStartReadOnlyIff(
      name: string, shard: string, ops: seq<Op>, run: seq<seq<InstNode>>, slots: seq<Slot>, base: nat, i: nat)
    requires SingleRun(name, shard, ops, run) && i < |run| && SoundSingle(name, shard, run[0], slots)
    requires CountsFrom(base, run[0], slots) && forall op :: op in ops ==> op.ScaleOut?
    ensures (forall n :: n in run[i] ==> (StartsWritable(n.serverId) <==> n.role == Master))
      <==> StartsWritable(base) && |run[i]| <= 10
  {
    hide SoundSingle, SingleStep, StartsWritable, CountsFrom;
    var now := SingleScaleOutsKeepIdsUnique(name, shard, ops, run, slots, base, i);
    CountedReadOnlyIff(name, shard, run[i], now, base);
  }

  lemma {:induction false} CountedReadOnlyIff(
      name: string, shard: string, nodes: seq<InstNode>, slots: seq<Slot>, base: nat)
    requires SoundSingle(name, shard, nodes, slots) && CountsFrom(base, nodes, slots)
    ensures (forall n :: n in nodes ==> (StartsWritable(n.serverId) <==> n.role == Master))
      <==> StartsWritable(base) && |nodes| <= 10
  {
    hide SoundSingle, StartsWritable, CountsFrom;
    CountedAreDistinct(name, shard, nodes, slots, base);
    var m := CountedMaster(name, shard, nodes, slots, base);
    if StartsWritable(base) && |nodes| <= 10 {
      forall n | n in nodes ensures StartsWritable(n.serverId) <==> n.role == Master {
        WritableAt(base, n.serverId - base);
        MasterHasBase(nodes, m, n);
      }
    } else if StartsWritable(base) {
      var n := TenthSlave(name, shard, nodes, slots, base);
      WritableAt(base, 10);
      MasterHasBase(nodes, m, n);
    }
  }

  lemma {:induction false} CountedMaster(
      name: string, shard: string, nodes: seq<InstNode>, slots: seq<Slot>, base: nat) returns (m: InstNode)
    requires SoundSingle(name, shard, nodes, slots) && CountsFrom(base, nodes, slots)
    ensures m in nodes && m.serverId == base && OneMaster(nodes, m.container) && m.role == Master
  {
    hide ContainerOf, Numbered, Named;
    var c :| OneMaster(nodes, c);
    FirstMasterIsIt(nodes, c);
    m := FirstMaster(nodes).value;
  }

  lemma {:induction false} MasterHasBase(nodes: seq<InstNode>, m: InstNode, n: InstNode)
    requires m in nodes && n in nodes && OneMaster(nodes, m.container) && DistinctIds(nodes)
    ensures n.role == Master <==> n.serverId == m.serverId
  {
    var a :| 0 <= a < |nodes| && nodes[a] == m;
    var b :| 0 <= b < |nodes| && nodes[b] == n;
  }

  lemma {:induction false} TenthSlave(
      name: string, shard: string, nodes: seq<InstNode>, slots: seq<Slot>, base: nat) returns (n: InstNode)
    requires SoundSingle(name, shard, nodes, slots) && CountsFrom(base, nodes, slots) && |nodes| > 10
    ensures n in nodes && n.serverId == base + 10
  {
    hide ContainerOf, OneMaster;
    AllTaken(slots, |nodes|, 10);
    var j :| 0 <= j < |slots| && slots[j] == Slot(0, 10);
    n := nodes[j];
  }

  /** Over every run of scale-outs of an instance with `n` shards: exactly the masters start writable if and
      only if the first base ends in 1 and no shard has more than nine slaves. */
  lemma {:induction false} ManyRunsStartReadOnlyIff(
      name: string, def: string, ops: seq<Op>, run: seq<seq<InstNode>>, slots: seq<Slot>,
      bases: map<nat, nat>, free: nat, first: nat, n: nat, i: nat)
    returns (slots': seq<Slot>)
    requires ManyRun(name, def, ops, run) && i < |run|
    requires SoundMany(name, run[0], slots) && Numbered(run[0], slots, bases, free)
    requires Strided(bases, first, n) && Contiguous(slots, n) && NothingReplaced(ops) && n > 0
    ensures SoundMany(name, run[i], slots') && Contiguous(slots', n)
    ensures (forall m :: m in run[i] ==> (StartsWritable(m.serverId) <==> m.role == Master))
      <==> StartsWritable(first) && forall s :: s in slots' ==> s.i <= 9
  {
    hide SoundMany, Numbered, Strided, Contiguous, StartsWritable, ManyRun;
    slots' := ManyRunsIdsIff(name, def, ops, run, slots, bases, free, first, n, i);
    var nodes := run[i];
    FirstPlaces(slots', bases, first, n);
    MastersStartWritableIff(nodes, slots', bases, free);
    MastersAreFirst(name, nodes, slots');
    AllBasesAlike(bases, first, n);
    NoTenthIff(slots', n);
  }

  lemma {:induction false} NoTenthIff(slots: seq<Slot>, n: nat)
    requires Contiguous(slots, n)
    ensures (forall s :: s in slots && s.i > 0 ==> s.i % 10 != 0) <==> forall s :: s in slots ==> s.i <= 9
  {
    hide Contiguous;
    if s :| s in slots && s.i > 9 {
      AllBelow(slots, n, s, 10);
      assert Slot(s.k, 10).i % 10 == 0;
    }
  }

  lemma {:induction false} FirstPlaces(slots: seq<Slot>, bases: map<nat, nat>, first: nat, n: nat)
    requires Strided(bases, first, n) && Contiguous(slots, n)
    ensures forall k :: k in bases ==> Slot(k, 0) in slots
  {
  }

  lemma {:induction false} AllBasesAlike(bases: map<nat, nat>, first: nat, n: nat)
    requires Strided(bases, first, n) && n > 0
    ensures (forall k :: k in bases ==> StartsWritable(bases[k])) <==> StartsWritable(first)
  {
    assert bases[1] == first;
    forall k | k in bases ensures StartsWritable(bases[k]) <==> StartsWritable(first) {
      assert bases[k] == first + 10 * (k - 1);
    }
  }

  lemma {:induction false} MastersAreFirst(name: string, nodes: seq<InstNode>, slots: seq<Slot>)
    requires SoundMany(name, nodes, slots)
    ensures |slots| == |nodes|
    ensures (forall m :: m in nodes ==> (StartsWritable(m.serverId) <==> m.role == Master))
      <==> forall j :: 0 <= j < |nodes| ==> (StartsWritable(nodes[j].serverId) <==> slots[j].i == 0)
  {
    hide ContainerOf, AtMostOneOfflinePerShard, StartsWritable;
    assert forall j :: 0 <= j < |nodes| ==> (nodes[j].role == Master <==> slots[j].i == 0);
    assert forall j :: 0 <= j < |nodes| ==> nodes[j] in nodes;
  }
}
