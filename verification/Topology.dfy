/** Node naming and server ids of src/instance.rs over runs of create and scale-out. */
module Topology {
  import opened Wrappers
  import opened Decimal
  import opened Instance
  import Reparent
  import opened Trees

  /** A node's place: shard `k` (0 for an instance with a single shard), slave number `i` (0 for the
      master). */
  datatype Slot = Slot(k: nat, i: nat)

  function ShardName(k: nat): string { "s" + Dec(k) }

  function Prefix(name: string, k: nat): string {
    "rds-" + name + "-" + if k == 0 then "" else ShardName(k) + "-"
  }

  function Tail(i: nat): string {
    if i == 0 then "master" else "slave-" + Dec(i)
  }

  function ContainerOf(name: string, s: Slot): string {
    Prefix(name, s.k) + Tail(s.i)
  }

  lemma {:induction false} TailInjective(i: nat, j: nat)
    requires Tail(i) == Tail(j)
    ensures i == j
  {
    if i > 0 && j > 0 {
      assert Tail(i)[6..] == Dec(i) && Tail(j)[6..] == Dec(j);
      DecInjective(i, j);
    } else {
      assert Tail(i)[0] == Tail(j)[0];
    }
  }

  lemma {:induction false} Cancel(p: string, a: string, b: string)
    requires p + a == p + b
    ensures a == b
  {
    assert a == (p + a)[|p|..] && b == (p + b)[|p|..];
  }

  lemma {:induction false} ShardContainer(name: string, s: Slot)
    requires s.k > 0
    ensures ContainerOf(name, s) == ("rds-" + name + "-s") + (Dec(s.k) + ("-" + Tail(s.i)))
  {
  }

  lemma {:induction false} ContainerInjective(name: string, s: Slot, t: Slot)
    requires (s.k == 0 <==> t.k == 0) && ContainerOf(name, s) == ContainerOf(name, t)
    ensures s == t
  {
    hide Tail, Dec;
    if s.k == 0 {
      Cancel(Prefix(name, 0), Tail(s.i), Tail(t.i));
    } else {
      hide ContainerOf;
      ShardContainer(name, s);
      ShardContainer(name, t);
      var x, y := "-" + Tail(s.i), "-" + Tail(t.i);
      Cancel("rds-" + name + "-s", Dec(s.k) + x, Dec(t.k) + y);
      DigitsThenMark(Dec(s.k), Dec(t.k), x, y);
      DecInjective(s.k, t.k);
      Cancel("-", Tail(s.i), Tail(t.i));
    }
    TailInjective(s.i, t.i);
  }

  /** What the suffix scan reads off a container name: the slave number, nothing for a master. */
  lemma {:induction false} SuffixOf(name: string, s: Slot)
    requires s.i <= U64_MAX
    ensures ParseU64(LastSegment(ContainerOf(name, s))) == if s.i == 0 then None else Some(s.i)
  {
    if s.i == 0 {
      var head := "rds-" + name + if s.k == 0 then "" else "-" + ShardName(s.k);
      assert ContainerOf(name, s) == head + "-" + "master";
      LastSegmentOf(head, "master");
      NotANumber();
    } else {
      var head := Prefix(name, s.k) + "slave";
      assert ContainerOf(name, s) == head + "-" + Dec(s.i);
      LastSegmentOf(head, Dec(s.i));
      ParseOfDec(s.i);
    }
  }

  lemma {:induction false} NotANumber()
    ensures ParseU64("master") == None
  {
    assert "master"[..5] == "maste";
    assert !IsDigit('r');
  }

  // ----- The invariants -----

  /** `slots[j]` is the place of `nodes[j]`: names follow the scheme, and no place is taken twice. */
  ghost predicate Named(name: string, nodes: seq<InstNode>, slots: seq<Slot>) {
    && |slots| == |nodes|
    && (forall i, j :: 0 <= i < j < |slots| ==> slots[i] != slots[j])
    && (forall j :: 0 <= j < |nodes| ==> nodes[j].container == ContainerOf(name, slots[j]) && slots[j].i <= |nodes|)
  }

  /** One shard: the slave numbers are 1 to n, whoever is master now. */
  ghost predicate SingleShard(nodes: seq<InstNode>, slots: seq<Slot>) {
    && |slots| == |nodes|
    && (forall j :: 0 <= j < |slots| ==> slots[j].k == 0 && slots[j].i < |nodes|)
    && (exists m :: OneMaster(nodes, m))
  }

  /** Several shards: the shard labels match the names, and every shard's own master leads it. */
  ghost predicate ManyShards(nodes: seq<InstNode>, slots: seq<Slot>) {
    && |slots| == |nodes|
    && (forall j :: 0 <= j < |nodes| ==> slots[j].k > 0 && nodes[j].shard == ShardName(slots[j].k))
    && (forall j :: 0 <= j < |nodes| ==> (nodes[j].role == Master <==> slots[j].i == 0))
    && (exists i, j :: 0 <= i < j < |nodes| && nodes[i].role == nodes[j].role == Master)
  }

  /** Server ids count up from the shard's base; bases are ten apart and below the next free one. */
  ghost predicate Numbered(nodes: seq<InstNode>, slots: seq<Slot>, bases: map<nat, nat>, next: nat) {
    && |slots| == |nodes|
    && (forall j :: 0 <= j < |nodes| ==> slots[j].k in bases && nodes[j].serverId == bases[slots[j].k] + slots[j].i)
    && (forall k, k' :: k in bases && k' in bases && k != k' ==>
         bases[k] + 10 <= bases[k'] || bases[k'] + 10 <= bases[k])
    && (forall k :: k in bases ==> bases[k] + 10 <= next)
  }

  ghost predicate AtMostOneOfflinePerShard(nodes: seq<InstNode>) {
    forall i, j :: 0 <= i < j < |nodes| && nodes[i].role.IsOffline() && nodes[j].role.IsOffline() ==>
      nodes[i].shard != nodes[j].shard
  }

  lemma {:induction false} NamesAreUnique(name: string, nodes: seq<InstNode>, slots: seq<Slot>)
    requires Named(name, nodes, slots)
    requires (forall j :: 0 <= j < |slots| ==> slots[j].k == 0) || (forall j :: 0 <= j < |slots| ==> slots[j].k > 0)
    ensures UniqueContainers(nodes)
  {
    forall i, j | 0 <= i < j < |nodes| ensures nodes[i].container != nodes[j].container {
      if nodes[i].container == nodes[j].container {
        ContainerInjective(name, slots[i], slots[j]);
      }
    }
  }

  /** With at most nine slaves in every shard, server ids are pairwise distinct. */
  lemma {:induction false} ServerIdsAreUnique(nodes: seq<InstNode>, slots: seq<Slot>, bases: map<nat, nat>, next: nat)
    requires Numbered(nodes, slots, bases, next)
    requires forall i, j :: 0 <= i < j < |slots| ==> slots[i] != slots[j]
    requires forall j :: 0 <= j < |slots| ==> slots[j].i <= 9
    ensures forall i, j :: 0 <= i < j < |nodes| ==> nodes[i].serverId != nodes[j].serverId
  {
    forall i, j | 0 <= i < j < |nodes| ensures nodes[i].serverId != nodes[j].serverId {
      assert slots[i] != slots[j];
    }
  }

  // ----- Create -----

  class Manager {
    var nextServerId: nat

    constructor ()
      ensures nextServerId == 1
    {
      nextServerId := 1;
    }

    method TakeBase() returns (base: nat)
      modifies this
      ensures base == old(nextServerId) && nextServerId == base + 10
    {
      base := nextServerId;
      nextServerId := nextServerId + 10;
    }

    /** An instance with one shard: `single`, `sync` (one read slave) or `async` (read and offline). */
    method BuildSingle(name: string, itype: string, shard: string)
      returns (nodes: seq<InstNode>, ghost slots: seq<Slot>, ghost bases: map<nat, nat>)
      modifies this
      ensures Named(name, nodes, slots) && SingleShard(nodes, slots)
      ensures Numbered(nodes, slots, bases, nextServerId) && bases == map[0 := old(nextServerId)]
      ensures AtMostOneOfflinePerShard(nodes)
      ensures |nodes| == if itype == "single" then 1 else if itype == "sync" then 2 else 3
      ensures Reparent.RootedAt(nodes, ContainerOf(name, Slot(0, 0)))
      ensures Roles(nodes) == if itype == "single" then [Master] else FreshRoles(itype != "sync")
      ensures forall j :: 0 <= j < |nodes| ==>
        slots[j] == Slot(0, j) && nodes[j] == SingleNode(name, old(nextServerId), shard, j)
    {
      hide Named, SingleShard, Numbered, AtMostOneOfflinePerShard, Reparent.RootedAt, Roles, FreshRoles, ContainerOf;
      var base := TakeBase();
      bases := map[0 := base];
      var roles :=
        if itype == "single" then [Master]
        else if itype == "sync" then [Master, Read]
        else [Master, Read, Offline];
      var master := "rds-" + name + "-master";
      SingleContainer(name, 0);
      nodes, slots := [], [];
      var slaveIdx, i := 0, 0;
      while i < |roles|
        invariant 0 <= i <= |roles| && |nodes| == |slots| == i
        invariant nextServerId == base + 10
        invariant slaveIdx == if i == 0 then 0 else i - 1
        invariant forall j :: 0 <= j < i ==> slots[j] == Slot(0, j) && nodes[j] == SingleNode(name, base, shard, j)
      {
        var container := master;
        if roles[i] != Master {
          slaveIdx := slaveIdx + 1;
          container := "rds-" + name + "-slave-" + Dec(slaveIdx);
        }
        SingleContainer(name, i);
        var parent := if roles[i] == Master then "" else master;
        nodes := nodes + [InstNode(container, roles[i], 0, 0, base + |nodes|, shard, parent)];
        slots := slots + [Slot(0, i)];
        i := i + 1;
      }
      SingleNodesAreSound(name, base, shard, nodes, slots);
      SingleTree(name, base, shard, nodes);
    }

    /** An instance with `shardN` shards, each a master, a read slave and, if async, an offline slave. */
    method BuildMulti(name: string, async: bool, shardN: nat)
      returns (nodes: seq<InstNode>, groups: seq<Group>, ghost slots: seq<Slot>, ghost bases: map<nat, nat>)
      requires shardN > 1
      modifies this
      ensures Named(name, nodes, slots) && ManyShards(nodes, slots)
      ensures Numbered(nodes, slots, bases, nextServerId) && AtMostOneOfflinePerShard(nodes)
      ensures |nodes| == if async then 3 * shardN else 2 * shardN
      ensures forall k, i :: 1 <= k <= shardN && 0 <= i < (if async then 3 else 2) ==> Slot(k, i) in slots
      ensures forall j :: 0 <= j < |nodes| ==>
        slots[j].k in bases && nodes[j] == MultiNode(name, bases[slots[j].k], slots[j])
      ensures Strided(bases, old(nextServerId), shardN) && Contiguous(slots, shardN)
      ensures forall k :: 1 <= k <= shardN ==>
        ShardTree(nodes, ShardName(k), ContainerOf(name, Slot(k, 0)), FreshRoles(async))
      ensures |groups| == shardN && AllServers(groups, shardN) == Registered(nodes)
    {
      hide ShardTree, ShardName, ContainerOf, FreshRoles, AllServers, Registered;
      hide Named, ManyShards, Numbered, AtMostOneOfflinePerShard, MultiNode, Spaced, Strided, Filled, Contiguous, Built;
      ghost var first, per := nextServerId, if async then 3 else 2;
      nodes, slots, bases, groups := [], [], map[], [];
      NothingBuilt(name, nextServerId, per);
      var k := 1;
      while k <= shardN
        invariant 1 <= k <= shardN + 1
        invariant |nodes| == |slots| == per * (k - 1)
        invariant Built(name, nodes, slots, bases, k) && Filled(slots, k, per)
        invariant Spaced(bases, nextServerId) && Strided(bases, first, k - 1)
        invariant nextServerId == first + 10 * (k - 1)
        invariant Planted(name, nodes, k, async)
        invariant |groups| == k - 1 && AllServers(groups, k - 1) == Registered(nodes)
      {
        var base := TakeBase();
        var group := [MultiNode(name, base, Slot(k, 0)), MultiNode(name, base, Slot(k, 1))];
        var g := Group(ContainerOf(name, Slot(k, 0)), ContainerOf(name, Slot(k, 1)),
                       if async then Some(ContainerOf(name, Slot(k, 2))) else None, base);
        ghost var places := [Slot(k, 0), Slot(k, 1)];
        if async {
          group := group + [MultiNode(name, base, Slot(k, 2))];
          places := places + [Slot(k, 2)];
        }
        GroupBuilt(name, nodes, slots, bases, k, base, group, places);
        GroupPlanted(name, nodes, slots, bases, k, base, group, async);
        GroupRegistered(name, nodes, groups, k, base, group, g, async);
        SpacedNext(bases, base, first, k);
        FilledNext(slots, k, per, places);
        nodes, slots, bases, groups := nodes + group, slots + places, bases[k := base], groups + [g];
        k := k + 1;
      }
      AllFilled(slots, shardN, per);
      BuiltAt(name, nodes, slots, bases, shardN + 1);
      MultiNodesAreSound(name, nodes, slots, bases, shardN, nextServerId);
    }
  }

  /** A node of a fresh instance with several shards. */
  function MultiNode(name: string, base: nat, s: Slot): InstNode {
    InstNode(ContainerOf(name, s), if s.i == 0 then Master else if s.i == 1 then Read else Offline,
             0, 0, base + s.i, ShardName(s.k), if s.i == 0 then "" else ContainerOf(name, Slot(s.k, 0)))
  }

  /** The bases of `n` shards, exactly ten apart. */
  ghost predicate Strided(bases: map<nat, nat>, first: nat, n: nat) {
    && (forall k :: k in bases <==> 1 <= k <= n)
    && (forall k :: k in bases ==> bases[k] == first + 10 * (k - 1))
  }

  /** Every one of the `n` shards has slave numbers from 0 up to some number, without a gap. */
  ghost predicate Contiguous(slots: seq<Slot>, n: nat) {
    && (forall k: nat :: 1 <= k <= n ==> Slot(k, 0) in slots)
    && (forall s :: s in slots ==> 1 <= s.k <= n && (s.i > 0 ==> Slot(s.k, s.i - 1) in slots))
  }

  ghost predicate Spaced(bases: map<nat, nat>, next: nat) {
    && (forall k, k' :: k in bases && k' in bases && k != k' ==>
         bases[k] + 10 <= bases[k'] || bases[k'] + 10 <= bases[k])
    && (forall k :: k in bases ==> bases[k] + 10 <= next)
  }

  /** The places of the shards below `limit`, `per` of them in each. */
  ghost predicate Filled(slots: seq<Slot>, limit: nat, per: nat) {
    && (forall k, i :: 1 <= k < limit && 0 <= i < per ==> Slot(k, i) in slots)
    && (forall s :: s in slots ==> 1 <= s.k < limit && s.i < per)
  }

  lemma {:induction false} FilledNext(slots: seq<Slot>, k: nat, per: nat, places: seq<Slot>)
    requires k >= 1 && Filled(slots, k, per) && |places| == per
    requires forall i :: 0 <= i < per ==> places[i] == Slot(k, i)
    ensures Filled(slots + places, k + 1, per)
  {
    var slots' := slots + places;
    forall k', i | 1 <= k' < k + 1 && 0 <= i < per ensures Slot(k', i) in slots' {
      if k' == k {
        assert places[i] in slots';
      } else {
        assert Slot(k', i) in slots;
      }
    }
  }

  lemma {:induction false} AllFilled(slots: seq<Slot>, n: nat, per: nat)
    requires Filled(slots, n + 1, per) && per > 1 && n > 1
    ensures Contiguous(slots, n) && Slot(1, 0) in slots && Slot(2, 0) in slots
    ensures forall k, i :: 1 <= k <= n && 0 <= i < per ==> Slot(k, i) in slots
  {
  }

  lemma {:induction false} NothingBuilt(name: string, next: nat, per: nat)
    ensures Spaced(map[], next) && Strided(map[], next, 0) && Filled([], 1, per) && Built(name, [], [], map[], 1)
    ensures AllServers([], 0) == Registered([])
  {
  }

  lemma {:induction false} SpacedNext(bases: map<nat, nat>, next: nat, first: nat, k: nat)
    requires k >= 1 && Spaced(bases, next) && Strided(bases, first, k - 1) && next == first + 10 * (k - 1)
    ensures Spaced(bases[k := next], next + 10) && Strided(bases[k := next], first, k)
  {
  }

  /** All shards below `limit` as they are created. */
  ghost predicate Built(name: string, nodes: seq<InstNode>, slots: seq<Slot>, bases: map<nat, nat>, limit: nat) {
    && |slots| == |nodes|
    && (forall k :: k in bases <==> 1 <= k < limit)
    && (forall i, j :: 0 <= i < j < |slots| ==> slots[i] != slots[j])
    && (forall j :: 0 <= j < |nodes| ==>
          slots[j].k in bases && slots[j].i <= 2 && nodes[j] == MultiNode(name, bases[slots[j].k], slots[j]))
  }

  lemma {:induction false} GroupBuilt(
      name: string, nodes: seq<InstNode>, slots: seq<Slot>, bases: map<nat, nat>, k: nat, base: nat,
      group: seq<InstNode>, places: seq<Slot>)
    requires k >= 1 && Built(name, nodes, slots, bases, k) && |group| == |places| <= 3
    requires forall j :: 0 <= j < |group| ==> places[j] == Slot(k, j) && group[j] == MultiNode(name, base, places[j])
    ensures Built(name, nodes + group, slots + places, bases[k := base], k + 1)
  {
    hide MultiNode;
    var nodes', slots', bases' := nodes + group, slots + places, bases[k := base];
    forall j | 0 <= j < |nodes'|
      ensures slots'[j].k in bases' && slots'[j].i <= 2 && nodes'[j] == MultiNode(name, bases'[slots'[j].k], slots'[j])
    {
      if j < |nodes| {
        assert slots'[j] == slots[j] && nodes'[j] == nodes[j] && slots[j].k != k;
      }
    }
  }

  /** The shards below `limit` are replication trees below their own masters. */
  ghost predicate Planted(name: string, nodes: seq<InstNode>, limit: nat, async: bool) {
    forall k :: 1 <= k < limit ==>
      ShardTree(nodes, ShardName(k), ContainerOf(name, Slot(k, 0)), FreshRoles(async))
  }

  lemma {:induction false} GroupTree(name: string, base: nat, k: nat, group: seq<InstNode>, async: bool)
    requires k > 0 && |group| == if async then 3 else 2
    requires forall j :: 0 <= j < |group| ==> group[j] == MultiNode(name, base, Slot(k, j))
    ensures Reparent.RootedAt(group, ContainerOf(name, Slot(k, 0))) && Roles(group) == FreshRoles(async)
    ensures forall n :: n in group ==> n.shard == ShardName(k)
  {
    hide ContainerOf, ShardName, Reparent.RootedAt;
    var slots := seq(|group|, j requires 0 <= j < |group| => Slot(k, j));
    NamesAreUnique(name, group, slots);
    assert group[0] in group;
    StarIsTree(group, ContainerOf(name, Slot(k, 0)));
  }

  /** The groups, from which the plan is made, name the same servers as the records. */
  lemma {:induction false} GroupRegistered(
      name: string, nodes: seq<InstNode>, groups: seq<Group>, k: nat, base: nat, group: seq<InstNode>, g: Group,
      async: bool)
    requires AllServers(groups, |groups|) == Registered(nodes) && |group| == if async then 3 else 2
    requires forall j :: 0 <= j < |group| ==> group[j] == MultiNode(name, base, Slot(k, j))
    requires g == Group(ContainerOf(name, Slot(k, 0)), ContainerOf(name, Slot(k, 1)),
                        if async then Some(ContainerOf(name, Slot(k, 2))) else None, base)
    ensures AllServers(groups + [g], |groups| + 1) == Registered(nodes + group)
  {
    hide AllServers, ShardName;
    MoreServers(groups, g);
    assert ContainerOf(name, Slot(k, 0)) != "";
    hide ContainerOf;
    assert Registered(group) == GroupServers(g);
    assert Registered(nodes + group) == Registered(nodes) + Registered(group);
  }

  lemma {:induction false} GroupPlanted(
      name: string, nodes: seq<InstNode>, slots: seq<Slot>, bases: map<nat, nat>, k: nat, base: nat,
      group: seq<InstNode>, async: bool)
    requires k >= 1 && Built(name, nodes, slots, bases, k) && Planted(name, nodes, k, async)
    requires |group| == if async then 3 else 2
    requires forall j :: 0 <= j < |group| ==> group[j] == MultiNode(name, base, Slot(k, j))
    ensures Planted(name, nodes + group, k + 1, async)
  {
    hide MultiNode, Built, ContainerOf, ShardName, Reparent.RootedAt, Roles, FreshRoles, OfShard;
    GroupTree(name, base, k, group, async);
    forall i | 1 <= i < k + 1
      ensures ShardTree(nodes + group, ShardName(i), ContainerOf(name, Slot(i, 0)), FreshRoles(async))
    {
      var shard := ShardName(i);
      OfShardAppend(nodes, group, shard);
      if i == k {
        BuiltElsewhere(name, nodes, slots, bases, k);
        OfShardNone(nodes, shard);
        OfShardAll(group, shard);
        assert OfShard(nodes + group, shard) == group;
      } else {
        forall n | n in group ensures n.shard != shard {
          if n.shard == shard {
            ShardNameInjective(i, k);
          }
        }
        OfShardNone(group, shard);
        assert OfShard(nodes + group, shard) == OfShard(nodes, shard);
      }
    }
  }

  lemma {:induction false} BuiltElsewhere(
      name: string, nodes: seq<InstNode>, slots: seq<Slot>, bases: map<nat, nat>, k: nat)
    requires Built(name, nodes, slots, bases, k)
    ensures forall n :: n in nodes ==> n.shard != ShardName(k)
  {
    hide ShardName, ContainerOf;
    forall n | n in nodes ensures n.shard != ShardName(k) {
      var j :| 0 <= j < |nodes| && nodes[j] == n;
      if n.shard == ShardName(k) {
        ShardNameInjective(slots[j].k, k);
      }
    }
  }

  lemma {:induction false} BuiltAt(
      name: string, nodes: seq<InstNode>, slots: seq<Slot>, bases: map<nat, nat>, limit: nat)
    requires Built(name, nodes, slots, bases, limit)
    ensures |slots| == |nodes|
    ensures forall j :: 0 <= j < |nodes| ==>
      slots[j].k in bases && nodes[j] == MultiNode(name, bases[slots[j].k], slots[j])
  {
    hide MultiNode;
  }

  lemma {:induction false} ShardNameInjective(k: nat, k': nat)
    requires ShardName(k) == ShardName(k')
    ensures k == k'
  {
    Cancel("s", Dec(k), Dec(k'));
    DecInjective(k, k');
  }

  lemma {:induction false} MultiNodesAreSound(
      name: string, nodes: seq<InstNode>, slots: seq<Slot>, bases: map<nat, nat>, shardN: nat, next: nat)
    requires shardN > 1 && Built(name, nodes, slots, bases, shardN + 1) && Spaced(bases, next)
    requires |nodes| >= 2 && Slot(1, 0) in slots && Slot(2, 0) in slots
    ensures Named(name, nodes, slots) && ManyShards(nodes, slots)
    ensures Numbered(nodes, slots, bases, next) && AtMostOneOfflinePerShard(nodes)
  {
    hide ContainerOf, ShardName, ManyShards;
    BuiltLeads(name, nodes, slots, bases, shardN + 1);
    BuiltOffline(name, nodes, slots, bases, shardN + 1);
  }

  lemma {:induction false} BuiltLeads(
      name: string, nodes: seq<InstNode>, slots: seq<Slot>, bases: map<nat, nat>, limit: nat)
    requires Built(name, nodes, slots, bases, limit) && Slot(1, 0) in slots && Slot(2, 0) in slots
    ensures ManyShards(nodes, slots)
  {
    hide ContainerOf, ShardName;
    var a :| 0 <= a < |slots| && slots[a] == Slot(1, 0);
    var b :| 0 <= b < |slots| && slots[b] == Slot(2, 0);
    var i, j := if a < b then a else b, if a < b then b else a;
    assert 0 <= i < j < |nodes| && nodes[i].role == nodes[j].role == Master;
  }

  lemma {:induction false} BuiltOffline(
      name: string, nodes: seq<InstNode>, slots: seq<Slot>, bases: map<nat, nat>, limit: nat)
    requires Built(name, nodes, slots, bases, limit)
    ensures AtMostOneOfflinePerShard(nodes)
  {
    hide ContainerOf, ShardName;
    forall i, j | 0 <= i < j < |nodes| && nodes[i].role.IsOffline() && nodes[j].role.IsOffline()
      ensures nodes[i].shard != nodes[j].shard
    {
      assert slots[i].i == slots[j].i == 2;
      if nodes[i].shard == nodes[j].shard {
        ShardNameInjective(slots[i].k, slots[j].k);
      }
    }
  }

  lemma {:induction false} SingleContainer(name: string, i: nat)
    ensures ContainerOf(name, Slot(0, i)) ==
      if i == 0 then "rds-" + name + "-master" else "rds-" + name + "-slave-" + Dec(i)
  {
    assert "rds-" + name + "-" + ("slave-" + Dec(i)) == "rds-" + name + "-slave-" + Dec(i);
  }

  /** The `j`-th node of a fresh single-shard instance. */
  function SingleNode(name: string, base: nat, shard: string, j: nat): InstNode {
    InstNode(ContainerOf(name, Slot(0, j)), if j == 0 then Master else if j == 1 then Read else Offline,
             0, 0, base + j, shard, if j == 0 then "" else ContainerOf(name, Slot(0, 0)))
  }

  lemma {:induction false} SingleNodesAreSound(
      name: string, base: nat, shard: string, nodes: seq<InstNode>, slots: seq<Slot>)
    requires 1 <= |nodes| <= 3 && |slots| == |nodes|
    requires forall j :: 0 <= j < |nodes| ==> slots[j] == Slot(0, j) && nodes[j] == SingleNode(name, base, shard, j)
    ensures Named(name, nodes, slots) && SingleShard(nodes, slots)
    ensures Numbered(nodes, slots, map[0 := base], base + 10) && AtMostOneOfflinePerShard(nodes)
  {
    hide ContainerOf;
    NamesAreUnique(name, nodes, slots);
    assert nodes[0] in nodes;
    assert OneMaster(nodes, nodes[0].container);
  }

  lemma {:induction false} SingleTree(name: string, base: nat, shard: string, nodes: seq<InstNode>)
    requires 1 <= |nodes| <= 3
    requires forall j :: 0 <= j < |nodes| ==> nodes[j] == SingleNode(name, base, shard, j)
    ensures Reparent.RootedAt(nodes, ContainerOf(name, Slot(0, 0)))
    ensures Roles(nodes) == if |nodes| == 1 then [Master] else FreshRoles(|nodes| == 3)
  {
    hide ContainerOf, Reparent.RootedAt;
    var slots := seq(|nodes|, j requires 0 <= j < |nodes| => Slot(0, j));
    NamesAreUnique(name, nodes, slots);
    assert nodes[0] in nodes;
    StarIsTree(nodes, ContainerOf(name, Slot(0, 0)));
  }

  // ----- Scale-out -----

  function MasterCount(nodes: seq<InstNode>): nat {
    if nodes == [] then 0 else (if nodes[0].role == Master then 1 else 0) + MasterCount(nodes[1..])
  }

  lemma {:induction false} NoMasters(nodes: seq<InstNode>)
    requires forall n :: n in nodes ==> n.role != Master
    ensures MasterCount(nodes) == 0
  {
    if nodes != [] {
      assert nodes[0] in nodes;
      NoMasters(nodes[1..]);
    }
  }

  lemma {:induction false} OneMasterCounts(nodes: seq<InstNode>, master: string)
    requires OneMaster(nodes, master)
    ensures MasterCount(nodes) == 1
  {
    var rest := nodes[1..];
    assert forall i, j :: 0 <= i < j < |rest| ==> rest[i] == nodes[i + 1] && rest[j] == nodes[j + 1];
    if nodes[0].container == master {
      forall n | n in rest ensures n.role != Master {
        var i :| 0 <= i < |rest| && rest[i] == n;
        assert nodes[i + 1] == n && n in nodes;
      }
      assert nodes[0] in nodes;
      NoMasters(rest);
    } else {
      assert nodes[0] in nodes;
      OneMasterCounts(rest, master);
    }
  }

  lemma {:induction false} ManyMastersCount(nodes: seq<InstNode>, i: nat, j: nat)
    requires i < j < |nodes| && nodes[i].role == nodes[j].role == Master
    ensures MasterCount(nodes) >= 2
  {
    if i == 0 {
      OneAtLeast(nodes[1..], j - 1);
    } else {
      ManyMastersCount(nodes[1..], i - 1, j - 1);
    }
  }

  lemma {:induction false} OneAtLeast(nodes: seq<InstNode>, j: nat)
    requires j < |nodes| && nodes[j].role == Master
    ensures MasterCount(nodes) >= 1
  {
    if j > 0 {
      OneAtLeast(nodes[1..], j - 1);
    }
  }

  /** One more than the largest slave number that the shard's container names show. */
  method NextShardSlaveIdx(nodes: seq<InstNode>, shard: string) returns (next: nat)
    ensures next >= 1
    ensures forall n :: n in nodes && n.shard == shard ==> Shown(n) < next
    ensures next > 1 ==> exists n :: n in nodes && n.shard == shard && Shown(n) == next - 1
  {
    var max, i := 0, 0;
    while i < |nodes|
      invariant 0 <= i <= |nodes|
      invariant forall j :: 0 <= j < i && nodes[j].shard == shard ==> Shown(nodes[j]) <= max
      invariant max > 0 ==> exists j :: 0 <= j < i && nodes[j].shard == shard && Shown(nodes[j]) == max
    {
      if nodes[i].shard == shard {
        match ParseU64(LastSegment(nodes[i].container))
        case None =>
        case Some(v) =>
          if v > max {
            max := v;
          }
      }
      i := i + 1;
    }
    next := max + 1;
  }

  function Shown(n: InstNode): nat {
    match ParseU64(LastSegment(n.container))
    case None => 0
    case Some(v) => v
  }

  datatype Refusal = OfflineExists | NoMaster | ShardRequired | NoSuchShard

  /** What a scale-out hands to the topology step; empty strings stand for the instance's defaults. */
  datatype Addition = Addition(container: string, role: Role, serverId: nat, shard: string, parent: string)

  datatype Planned = Refused(why: Refusal) | Accepted(addition: Addition)

  /** A new slave is read or offline. */
  function SlaveRole(role: Role): Role {
    if role.IsOffline() then Offline else Read
  }

  function ShardMaster(nodes: seq<InstNode>, shard: string): Option<InstNode> {
    if nodes == [] then None
    else if nodes[0].role == Master && nodes[0].shard == shard then Some(nodes[0])
    else ShardMaster(nodes[1..], shard)
  }

  lemma {:induction false} ShardMasterFound(nodes: seq<InstNode>, shard: string)
    ensures var m := ShardMaster(nodes, shard);
      if m.Some? then m.value in nodes && m.value.role == Master && m.value.shard == shard
      else forall n :: n in nodes && n.shard == shard ==> n.role != Master
  {
    if nodes != [] && !(nodes[0].role == Master && nodes[0].shard == shard) {
      ShardMasterFound(nodes[1..], shard);
      assert nodes == [nodes[0]] + nodes[1..];
    }
  }

  /** The addition that a scale-out submits for an instance with at most one master. */
  ghost predicate SingleAddition(name: string, nodes: seq<InstNode>, role: Role, a: Addition) {
    && MasterCount(nodes) <= 1 && FirstMaster(nodes).Some?
    && (role.IsOffline() ==> forall n :: n in nodes ==> !n.role.IsOffline())
    && var idx := |nodes| - MasterCount(nodes) + 1;
       idx >= 0
       && a == Addition("rds-" + name + "-slave-" + Dec(idx), SlaveRole(role),
                        FirstMaster(nodes).value.serverId + idx, "", "")
  }

  /** The addition that a scale-out submits for one shard of several. */
  ghost predicate ShardAddition(name: string, nodes: seq<InstNode>, role: Role, shard: string, next: nat, a: Addition) {
    && MasterCount(nodes) > 1 && ShardMaster(nodes, shard).Some? && next >= 1
    && (role.IsOffline() ==> forall n :: n in nodes && n.shard == shard ==> !n.role.IsOffline())
    && (forall n :: n in nodes && n.shard == shard ==> Shown(n) < next)
    && (next > 1 ==> exists n :: n in nodes && n.shard == shard && Shown(n) == next - 1)
    && var m := ShardMaster(nodes, shard).value;
       a == Addition("rds-" + name + "-" + shard + "-slave-" + Dec(next), SlaveRole(role),
                     m.serverId + next, shard, m.container)
  }

  /** The decisions of a scale-out, up to the task it submits. */
  method PlanScaleOut(name: string, nodes: seq<InstNode>, role: Role, shard: string) returns (p: Planned)
    ensures p == Refused(OfflineExists) <==>
      role.IsOffline() && (MasterCount(nodes) <= 1 || shard != "")
      && exists n :: n in nodes && n.role.IsOffline() && (MasterCount(nodes) <= 1 || n.shard == shard)
    ensures p == Refused(ShardRequired) <==> MasterCount(nodes) > 1 && shard == ""
    ensures p.Accepted? ==>
      || SingleAddition(name, nodes, role, p.addition)
      || exists next :: ShardAddition(name, nodes, role, shard, next, p.addition)
    ensures p == Refused(NoSuchShard) <==>
      MasterCount(nodes) > 1 && shard != "" && forall n :: n in nodes ==> n.shard != shard
    ensures p == Refused(NoMaster) <==>
      && (MasterCount(nodes) <= 1 || (shard != "" && exists n :: n in nodes && n.shard == shard))
      && !(role.IsOffline()
           && exists n :: n in nodes && n.role.IsOffline() && (MasterCount(nodes) <= 1 || n.shard == shard))
      && forall n :: n in nodes && (MasterCount(nodes) <= 1 || n.shard == shard) ==> n.role != Master
  {
    if MasterCount(nodes) <= 1 {
      if role.IsOffline() && exists n :: n in nodes && n.role.IsOffline() {
        return Refused(OfflineExists);
      }
      var m := FirstMaster(nodes);
      NoFirstMaster(nodes);
      if m.None? {
        return Refused(NoMaster);
      }
      CountBound(nodes);
      var idx := |nodes| - MasterCount(nodes) + 1;
      return Accepted(Addition("rds-" + name + "-slave-" + Dec(idx), SlaveRole(role), m.value.serverId + idx, "", ""));
    }
    if shard == "" {
      return Refused(ShardRequired);
    }
    if !exists n :: n in nodes && n.shard == shard {
      return Refused(NoSuchShard);
    }
    if role.IsOffline() && exists n :: n in nodes && n.shard == shard && n.role.IsOffline() {
      return Refused(OfflineExists);
    }
    var m := ShardMaster(nodes, shard);
    ShardMasterFound(nodes, shard);
    if m.None? {
      return Refused(NoMaster);
    }
    var next := NextShardSlaveIdx(nodes, shard);
    var a := Addition("rds-" + name + "-" + shard + "-slave-" + Dec(next), SlaveRole(role),
                      m.value.serverId + next, shard, m.value.container);
    assert ShardAddition(name, nodes, role, shard, next, a);
    return Accepted(a);
  }

  lemma {:induction false} NoFirstMaster(nodes: seq<InstNode>)
    ensures FirstMaster(nodes).None? ==> forall n :: n in nodes ==> n.role != Master
    ensures FirstMaster(nodes).Some? ==> FirstMaster(nodes).value in nodes && FirstMaster(nodes).value.role == Master
  {
    if nodes != [] {
      NoFirstMaster(nodes[1..]);
      assert nodes == [nodes[0]] + nodes[1..];
    }
  }

  lemma {:induction false} CountBound(nodes: seq<InstNode>)
    ensures MasterCount(nodes) <= |nodes|
  {
    if nodes != [] {
      CountBound(nodes[1..]);
    }
  }

  /** The topology step: it appends the record, without looking for an existing one. */
  function Append(nodes: seq<InstNode>, a: Addition, shard: string): seq<InstNode> {
    nodes + [NewRecord(nodes, a, shard)]
  }

  function NewRecord(nodes: seq<InstNode>, a: Addition, shard: string): InstNode {
    var master := match FirstMaster(nodes) case None => "" case Some(m) => m.container;
    InstNode(a.container, a.role, 0, 0, a.serverId, if a.shard == "" then shard else a.shard,
             if a.parent == "" then master else a.parent)
  }

  // ----- What every operation keeps -----

  ghost predicate SoundSingle(name: string, shard: string, nodes: seq<InstNode>, slots: seq<Slot>) {
    && Named(name, nodes, slots) && SingleShard(nodes, slots) && AtMostOneOfflinePerShard(nodes)
    && forall n :: n in nodes ==> n.shard == shard
  }

  ghost predicate SoundMany(name: string, nodes: seq<InstNode>, slots: seq<Slot>) {
    Named(name, nodes, slots) && ManyShards(nodes, slots) && AtMostOneOfflinePerShard(nodes)
  }

  /** One more record with the next slave number keeps a one-shard instance sound. */
  lemma {:induction false} SingleAppended(
      name: string, shard: string, nodes: seq<InstNode>, slots: seq<Slot>, n: InstNode, m: string)
    requires SoundSingle(name, shard, nodes, slots) && OneMaster(nodes, m)
    requires n.container == ContainerOf(name, Slot(0, |nodes|)) && n.role != Master && n.shard == shard
    requires n.role.IsOffline() ==> forall o :: o in nodes ==> !o.role.IsOffline()
    ensures SoundSingle(name, shard, nodes + [n], slots + [Slot(0, |nodes|)])
  {
    hide ContainerOf;
    var nodes', slots' := nodes + [n], slots + [Slot(0, |nodes|)];
    assert Slot(0, |nodes|) !in slots;
    AppendedNames(name, nodes, slots, nodes', slots');
    MasterStays(nodes, n, m);
    OfflineAppended(nodes, n);
  }

  lemma {:induction false} OfflineAppended(nodes: seq<InstNode>, n: InstNode)
    requires AtMostOneOfflinePerShard(nodes)
    requires n.role.IsOffline() ==> forall o :: o in nodes && o.shard == n.shard ==> !o.role.IsOffline()
    ensures AtMostOneOfflinePerShard(nodes + [n])
  {
    var nodes' := nodes + [n];
    forall i, j | 0 <= i < j < |nodes'| && nodes'[i].role.IsOffline() && nodes'[j].role.IsOffline()
      ensures nodes'[i].shard != nodes'[j].shard
    {
      assert nodes'[i] == nodes[i] && nodes[i] in nodes;
    }
  }

  lemma {:induction false} NumberedAppended(
      nodes: seq<InstNode>, slots: seq<Slot>, bases: map<nat, nat>, next: nat, n: InstNode, s: Slot)
    requires Numbered(nodes, slots, bases, next) && s.k in bases && n.serverId == bases[s.k] + s.i
    ensures Numbered(nodes + [n], slots + [s], bases, next)
  {
  }

  lemma {:induction false} SingleIndex(
      name: string, shard: string, nodes: seq<InstNode>, slots: seq<Slot>, role: Role, a: Addition)
    returns (m: string)
    requires SoundSingle(name, shard, nodes, slots) && SingleAddition(name, nodes, role, a)
    ensures OneMaster(nodes, m) && a.container == ContainerOf(name, Slot(0, |nodes|))
    ensures a.serverId == FirstMaster(nodes).value.serverId + |nodes| && a.shard == "" && a.role == SlaveRole(role)
    ensures a.role.IsOffline() ==> forall o :: o in nodes ==> !o.role.IsOffline()
  {
    m :| OneMaster(nodes, m);
    OneMasterCounts(nodes, m);
  }

  /** Scaling out an instance with one shard takes the next free slave number. */
  lemma {:induction false} SingleScaleOutKeeps(
      name: string, shard: string, nodes: seq<InstNode>, slots: seq<Slot>, role: Role, a: Addition)
    requires SoundSingle(name, shard, nodes, slots) && SingleAddition(name, nodes, role, a)
    ensures SoundSingle(name, shard, Append(nodes, a, shard), slots + [Slot(0, |nodes|)])
    ensures a.container == ContainerOf(name, Slot(0, |nodes|))
    ensures a.serverId == FirstMaster(nodes).value.serverId + |nodes|
  {
    var m := SingleIndex(name, shard, nodes, slots, role, a);
    hide SingleAddition, ContainerOf, MasterCount, SoundSingle, OneMaster, FirstMaster;
    SingleAppended(name, shard, nodes, slots, NewRecord(nodes, a, shard), m);
  }

  lemma {:induction false} AppendedNames(
      name: string, nodes: seq<InstNode>, slots: seq<Slot>, nodes': seq<InstNode>, slots': seq<Slot>)
    requires Named(name, nodes, slots) && |nodes'| == |slots'| == |nodes| + 1
    requires nodes'[..|nodes|] == nodes && slots'[..|slots|] == slots && slots'[|nodes|] !in slots
    requires nodes'[|nodes|].container == ContainerOf(name, slots'[|nodes|]) && slots'[|nodes|].i <= |nodes'|
    requires (forall j :: 0 <= j < |slots'| ==> slots'[j].k == 0) || (forall j :: 0 <= j < |slots'| ==> slots'[j].k > 0)
    ensures Named(name, nodes', slots') && UniqueContainers(nodes')
  {
    hide ContainerOf;
    assert forall j :: 0 <= j < |nodes| ==> nodes'[j] == nodes[j] && slots'[j] == slots[j];
    NamesAreUnique(name, nodes', slots');
  }

  lemma {:induction false} ShardAppended(name: string, nodes: seq<InstNode>, slots: seq<Slot>, n: InstNode, s: Slot)
    requires SoundMany(name, nodes, slots) && s.k > 0 && 0 < s.i <= |nodes| + 1 && s !in slots
    requires n.container == ContainerOf(name, s) && n.role != Master && n.shard == ShardName(s.k)
    requires n.role.IsOffline() ==> forall o :: o in nodes && o.shard == n.shard ==> !o.role.IsOffline()
    ensures SoundMany(name, nodes + [n], slots + [s])
  {
    hide ContainerOf, ShardName;
    AppendedNames(name, nodes, slots, nodes + [n], slots + [s]);
    AppendedLeads(nodes, slots, nodes + [n], slots + [s]);
    OfflineAppended(nodes, n);
  }

  lemma {:induction false} ShardMasterSlot(
      name: string, nodes: seq<InstNode>, slots: seq<Slot>, role: Role, shard: string, next: nat, a: Addition)
    returns (j: nat)
    requires ManyShards(nodes, slots) && ShardAddition(name, nodes, role, shard, next, a)
    ensures ShardMaster(nodes, shard).Some?
    ensures j < |nodes| && nodes[j] == ShardMaster(nodes, shard).value
    ensures slots[j].i == 0 && ShardName(slots[j].k) == shard
  {
    hide ShardName;
    ShardMasterFound(nodes, shard);
    j :| 0 <= j < |nodes| && nodes[j] == ShardMaster(nodes, shard).value;
  }

  lemma {:induction false} AddedContainer(
      name: string, nodes: seq<InstNode>, role: Role, k: nat, next: nat, a: Addition)
    requires k > 0 && ShardAddition(name, nodes, role, ShardName(k), next, a)
    ensures a.container == ContainerOf(name, Slot(k, next)) && ShardName(k) != ""
  {
    hide MasterCount, ShardMaster, Dec;
    Regrouped("rds-" + name + "-", ShardName(k), Dec(next));
    assert ShardName(k)[0] == 's';
  }

  lemma {:induction false} Regrouped(head: string, shard: string, number: string)
    ensures head + shard + "-slave-" + number == (head + (shard + "-")) + ("slave-" + number)
  {
    assert "-slave-" == "-" + "slave-";
  }

  /** Scaling out a shard takes a number above all that its container names show. */
  lemma {:induction false} ShardScaleOutKeeps(
      name: string, nodes: seq<InstNode>, slots: seq<Slot>, role: Role, k: nat, next: nat, a: Addition, def: string)
    requires SoundMany(name, nodes, slots) && ShardAddition(name, nodes, role, ShardName(k), next, a)
    requires k > 0 && |nodes| < U64_MAX
    ensures SoundMany(name, Append(nodes, a, def), slots + [Slot(k, next)])
    ensures a.container == ContainerOf(name, Slot(k, next))
    ensures forall bases, free :: Numbered(nodes, slots, bases, free) ==>
      Numbered(Append(nodes, a, def), slots + [Slot(k, next)], bases, free)
  {
    AddedContainer(name, nodes, role, k, next, a);
    NumberIsFree(name, nodes, slots, k, next);
    hide ContainerOf, FirstMaster, MasterCount, ShardMaster, ShardName, Named, ManyShards, SoundMany;
    var n := NewRecord(nodes, a, def);
    ShardAppended(name, nodes, slots, n, Slot(k, next));
    ShardNumber(name, nodes, slots, role, k, next, a);
    forall bases, free | Numbered(nodes, slots, bases, free)
      ensures Numbered(Append(nodes, a, def), slots + [Slot(k, next)], bases, free)
    {
      NumberedAppended(nodes, slots, bases, free, n, Slot(k, next));
    }
  }

  lemma {:induction false} ShardNumber(
      name: string, nodes: seq<InstNode>, slots: seq<Slot>, role: Role, k: nat, next: nat, a: Addition)
    requires SoundMany(name, nodes, slots) && ShardAddition(name, nodes, role, ShardName(k), next, a)
    ensures forall bases, free :: Numbered(nodes, slots, bases, free) ==> k in bases && a.serverId == bases[k] + next
  {
    hide ContainerOf, ShardName, MasterCount;
    var j := ShardMasterSlot(name, nodes, slots, role, ShardName(k), next, a);
    ShardNameInjective(slots[j].k, k);
    assert slots[j] == Slot(k, 0);
  }

  lemma {:induction false} AppendedLeads(
      nodes: seq<InstNode>, slots: seq<Slot>, nodes': seq<InstNode>, slots': seq<Slot>)
    requires ManyShards(nodes, slots) && |nodes'| == |slots'| == |nodes| + 1
    requires nodes'[..|nodes|] == nodes && slots'[..|slots|] == slots
    requires slots'[|nodes|].k > 0 && nodes'[|nodes|].shard == ShardName(slots'[|nodes|].k)
    requires slots'[|nodes|].i > 0 && nodes'[|nodes|].role != Master
    ensures ManyShards(nodes', slots')
  {
    hide ShardName;
    assert forall j :: 0 <= j < |nodes| ==> nodes'[j] == nodes[j] && slots'[j] == slots[j];
    var i, j :| 0 <= i < j < |nodes| && nodes[i].role == nodes[j].role == Master;
    assert nodes'[i].role == nodes'[j].role == Master;
  }

  lemma {:induction false} NumberIsFree(name: string, nodes: seq<InstNode>, slots: seq<Slot>, k: nat, next: nat)
    requires Named(name, nodes, slots) && ManyShards(nodes, slots) && |nodes| < U64_MAX && next >= 1
    requires forall n :: n in nodes && n.shard == ShardName(k) ==> Shown(n) < next
    requires next > 1 ==> exists n :: n in nodes && n.shard == ShardName(k) && Shown(n) == next - 1
    ensures Slot(k, next) !in slots && next <= |nodes| + 1
  {
    hide ContainerOf, ShardName;
    forall j | 0 <= j < |slots| ensures Shown(nodes[j]) == slots[j].i {
      SuffixOf(name, slots[j]);
    }
    if next > 1 {
      var n :| n in nodes && n.shard == ShardName(k) && Shown(n) == next - 1;
      var j :| 0 <= j < |nodes| && nodes[j] == n;
    }
    forall j | 0 <= j < |slots| ensures slots[j] != Slot(k, next) {
      assert nodes[j] in nodes;
    }
  }

  lemma {:induction false} SwitchMovesMaster(shard: string, nodes: seq<InstNode>, was: string, cand: string)
    requires OneMaster(nodes, was) && cand in Containers(nodes) && cand != was
    requires AtMostOneOfflinePerShard(nodes) && forall n :: n in nodes ==> n.shard == shard
    ensures var nodes' := Reparent.Rewritten(nodes, was, cand);
      OneMaster(nodes', cand) && AtMostOneOfflinePerShard(nodes') && forall n :: n in nodes' ==> n.shard == shard
  {
    var nodes' := Reparent.Rewritten(nodes, was, cand);
    Reparent.RewriteKeepsContainers(nodes, was, cand);
    hide Reparent.Rewritten;
    forall n | n in nodes' ensures (n.role == Master <==> n.container == cand) && n.shard == shard {
      var i :| 0 <= i < |nodes'| && nodes'[i] == n;
      assert nodes[i] in nodes;
    }
    assert forall i :: 0 <= i < |nodes'| ==>
      nodes'[i].shard == nodes[i].shard && (nodes'[i].role.IsOffline() ==> nodes[i].role.IsOffline());
  }

  /** A switchover inside a one-master instance keeps names, the offline rule and the single master. */
  lemma {:induction false} SwitchKeeps(
      name: string, shard: string, nodes: seq<InstNode>, slots: seq<Slot>, was: string, cand: string)
    requires SoundSingle(name, shard, nodes, slots) && OneMaster(nodes, was) && cand in Containers(nodes) && cand != was
    ensures SoundSingle(name, shard, Reparent.Rewritten(nodes, was, cand), slots)
  {
    hide ContainerOf, OneMaster, AtMostOneOfflinePerShard, Reparent.Rewrite;
    SwitchMovesMaster(shard, nodes, was, cand);
  }

  // ----- Replacing a node -----

  function MaxServerId(nodes: seq<InstNode>): nat {
    if nodes == [] then 0
    else
      var rest := MaxServerId(nodes[1..]);
      if nodes[0].serverId > rest then nodes[0].serverId else rest
  }

  /** A replaced node keeps its identity on another host; its new container gets a new host port and the
      largest server id of the instance plus one. */
  function Replaced(nodes: seq<InstNode>, j: nat, hostPort: nat): (r: seq<InstNode>)
    requires j < |nodes|
    ensures |r| == |nodes|
  {
    nodes[j := nodes[j].(hostPort := hostPort, serverId := MaxServerId(nodes) + 1)]
  }

  lemma {:induction false} ReplacedStays(nodes: seq<InstNode>, j: nat, hostPort: nat)
    requires j < |nodes|
    ensures SamePlaces(nodes, Replaced(nodes, j, hostPort))
  {
  }

  /** Replacing keeps the naming invariants of an instance with one shard. */
  lemma {:induction false} ReplaceKeeps(
      name: string, shard: string, nodes: seq<InstNode>, slots: seq<Slot>, nodes': seq<InstNode>)
    requires SoundSingle(name, shard, nodes, slots) && SamePlaces(nodes, nodes')
    ensures SoundSingle(name, shard, nodes', slots)
  {
    hide ContainerOf, OneMaster;
    var m :| OneMaster(nodes, m);
    SameMaster(nodes, nodes', m);
    forall n | n in nodes' ensures n.shard == shard {
      var i :| 0 <= i < |nodes'| && nodes'[i] == n;
      assert nodes[i] in nodes;
    }
  }

  /** And those of an instance with several shards. */
  lemma {:induction false} ReplaceKeepsMany(
      name: string, nodes: seq<InstNode>, slots: seq<Slot>, nodes': seq<InstNode>)
    requires SoundMany(name, nodes, slots) && SamePlaces(nodes, nodes')
    ensures SoundMany(name, nodes', slots)
  {
    hide ContainerOf, ShardName;
    var i, j :| 0 <= i < j < |nodes| && nodes[i].role == nodes[j].role == Master;
    assert nodes'[i].role == nodes'[j].role == Master;
  }

  // ----- Runs -----

  /** A node is replaced by its place in the list; names are unique. */
  datatype Op =
    | ScaleOut(role: Role, shard: string, addition: Addition)
    | Switch(was: string, cand: string)
    | Replace(j: nat, hostPort: nat)

  /** A replacement of a node that is no master. */
  ghost predicate ReplaceStep(nodes: seq<InstNode>, op: Op, nodes': seq<InstNode>) {
    && op.Replace? && op.j < |nodes| && nodes[op.j].role != Master
    && nodes' == Replaced(nodes, op.j, op.hostPort)
  }

  ghost predicate NothingReplaced(ops: seq<Op>) {
    forall op :: op in ops ==> !op.Replace?
  }

  ghost predicate SingleStep(name: string, shard: string, nodes: seq<InstNode>, op: Op, nodes': seq<InstNode>) {
    match op
    case ScaleOut(role, _, a) => SingleAddition(name, nodes, role, a) && nodes' == Append(nodes, a, shard)
    case Switch(was, cand) =>
      && OneMaster(nodes, was) && cand in Containers(nodes) && cand != was
      && nodes' == Reparent.Rewritten(nodes, was, cand)
    case Replace(_, _) => ReplaceStep(nodes, op, nodes')
  }

  ghost predicate ManyStep(name: string, def: string, nodes: seq<InstNode>, op: Op, nodes': seq<InstNode>) {
    match op
    case ScaleOut(role, shard, a) =>
      (exists next :: ShardAddition(name, nodes, role, shard, next, a)) && nodes' == Append(nodes, a, def)
    case Switch(_, _) => false
    case Replace(_, _) => ReplaceStep(nodes, op, nodes')
  }

  ghost predicate ManyRun(name: string, def: string, ops: seq<Op>, run: seq<seq<InstNode>>) {
    |run| == |ops| + 1
    && forall j, j' :: 0 <= j && j' == j + 1 && j' < |run| ==>
      ManyStep(name, def, run[j], ops[j], run[j']) && |run[j]| < U64_MAX
  }

  ghost predicate SingleRun(name: string, shard: string, ops: seq<Op>, run: seq<seq<InstNode>>) {
    |run| == |ops| + 1
    && forall j, j' :: 0 <= j && j' == j + 1 && j' < |run| ==> SingleStep(name, shard, run[j], ops[j], run[j'])
  }

  /** Every run of scale-outs, switchovers and replacements of an instance with one shard, each topology
      step applied once, keeps container names distinct, one master and at most one offline slave. */
  lemma {:induction false} SingleRunsStaySound(
      name: string, shard: string, ops: seq<Op>, run: seq<seq<InstNode>>, slots: seq<Slot>, i: nat)
    returns (slots': seq<Slot>)
    requires SingleRun(name, shard, ops, run) && SoundSingle(name, shard, run[0], slots) && i < |run|
    ensures SoundSingle(name, shard, run[i], slots') && UniqueContainers(run[i])
  {
    hide ContainerOf;
    if i == 0 {
      slots' := slots;
    } else {
      var before := SingleRunsStaySound(name, shard, ops, run, slots, i - 1);
      assert SingleStep(name, shard, run[i - 1], ops[i - 1], run[i]);
      match ops[i - 1]
      case ScaleOut(role, _, a) =>
        SingleScaleOutKeeps(name, shard, run[i - 1], before, role, a);
        slots' := before + [Slot(0, |run[i - 1]|)];
      case Switch(was, cand) =>
        SwitchKeeps(name, shard, run[i - 1], before, was, cand);
        slots' := before;
      case Replace(j, hostPort) =>
        ReplacedStays(run[i - 1], j, hostPort);
        ReplaceKeeps(name, shard, run[i - 1], before, run[i]);
        slots' := before;
    }
    NamesAreUnique(name, run[i], slots');
  }

  lemma {:induction false} AddedToShard(
      name: string, nodes: seq<InstNode>, slots: seq<Slot>, role: Role, shard: string, a: Addition)
    returns (k: nat, next: nat)
    requires SoundMany(name, nodes, slots) && exists x :: ShardAddition(name, nodes, role, shard, x, a)
    ensures k > 0 && ShardAddition(name, nodes, role, ShardName(k), next, a) && shard == ShardName(k)
  {
    hide ContainerOf, ShardName, ShardAddition;
    next :| ShardAddition(name, nodes, role, shard, next, a);
    var j := ShardMasterSlot(name, nodes, slots, role, shard, next, a);
    k := slots[j].k;
  }

  /** Every run of scale-outs and replacements of an instance with several shards keeps container names
      distinct and at most one offline slave per shard, and slave numbers without a gap stay so; as long
      as nothing is replaced, server ids keep counting from the bases. */
  lemma {:induction false} ManyRunsStaySound(
      name: string, def: string, ops: seq<Op>, run: seq<seq<InstNode>>, slots: seq<Slot>, bases: map<nat, nat>,
      free: nat, i: nat)
      returns (slots': seq<Slot>)
    requires ManyRun(name, def, ops, run) && i < |run|
    requires SoundMany(name, run[0], slots)
    ensures SoundMany(name, run[i], slots') && UniqueContainers(run[i])
    ensures NothingReplaced(ops) && Numbered(run[0], slots, bases, free) ==> Numbered(run[i], slots', bases, free)
    ensures forall n: nat :: Contiguous(slots, n) ==> Contiguous(slots', n)
  {
    hide ContainerOf, ShardName, ShardAddition, Append, Contiguous;
    if i == 0 {
      slots' := slots;
    } else {
      var before := ManyRunsStaySound(name, def, ops, run, slots, bases, free, i - 1);
      var nodes, op := run[i - 1], ops[i - 1];
      assert ManyStep(name, def, nodes, op, run[i]);
      match op
      case Replace(j, hostPort) =>
        ReplacedStays(nodes, j, hostPort);
        ReplaceKeepsMany(name, nodes, before, run[i]);
        assert op in ops;
        slots' := before;
      case ScaleOut(role, shard, a) =>
        var k, next := AddedToShard(name, nodes, before, role, shard, a);
        ShardScaleOutKeeps(name, nodes, before, role, k, next, a, def);
        slots' := before + [Slot(k, next)];
        forall n: nat | Contiguous(before, n) ensures Contiguous(slots', n) {
          StaysContiguous(name, nodes, before, role, k, next, a, n);
        }
    }
    NamesAreUnique(name, run[i], slots');
  }

  lemma {:induction false} StaysContiguous(
      name: string, nodes: seq<InstNode>, slots: seq<Slot>, role: Role, k: nat, next: nat, a: Addition, n: nat)
    requires SoundMany(name, nodes, slots) && ShardAddition(name, nodes, role, ShardName(k), next, a)
    requires k > 0 && |nodes| < U64_MAX && Contiguous(slots, n)
    ensures Contiguous(slots + [Slot(k, next)], n)
  {
    hide SoundMany, ShardAddition;
    MasterPlace(name, nodes, slots, role, k, next, a);
    if next > 1 {
      PreviousPlace(name, nodes, slots, role, k, next, a);
    }
    assert forall s :: s in slots + [Slot(k, next)] <==> s in slots || s == Slot(k, next);
  }

  lemma {:induction false} MasterPlace(
      name: string, nodes: seq<InstNode>, slots: seq<Slot>, role: Role, k: nat, next: nat, a: Addition)
    requires SoundMany(name, nodes, slots) && ShardAddition(name, nodes, role, ShardName(k), next, a)
    requires k > 0 && |nodes| < U64_MAX
    ensures Slot(k, 0) in slots
  {
    hide ContainerOf, ShardName, MasterCount;
    var j := ShardMasterSlot(name, nodes, slots, role, ShardName(k), next, a);
    ShardNameInjective(slots[j].k, k);
    assert slots[j] == Slot(k, 0) && slots[j] in slots;
  }

  lemma {:induction false} PreviousPlace(
      name: string, nodes: seq<InstNode>, slots: seq<Slot>, role: Role, k: nat, next: nat, a: Addition)
    requires SoundMany(name, nodes, slots) && ShardAddition(name, nodes, role, ShardName(k), next, a)
    requires k > 0 && |nodes| < U64_MAX && next > 1
    ensures Slot(k, next - 1) in slots
  {
    hide ContainerOf, ShardName, MasterCount;
    var o :| o in nodes && o.shard == ShardName(k) && Shown(o) == next - 1;
    var t :| 0 <= t < |nodes| && nodes[t] == o;
    SuffixOf(name, slots[t]);
    ShardNameInjective(slots[t].k, k);
    assert slots[t] == Slot(k, next - 1) && slots[t] in slots;
  }

  /** The topology step is not idempotent: applied twice, it records the container twice. */
  lemma {:induction false} AppendingTwiceDuplicates(nodes: seq<InstNode>, a: Addition, shard: string)
    ensures !UniqueContainers(Append(Append(nodes, a, shard), a, shard))
  {
    var twice := Append(Append(nodes, a, shard), a, shard);
    assert twice[|nodes|].container == twice[|nodes| + 1].container;
  }
}
