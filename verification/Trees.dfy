/** Replication trees in the instance records of src/instance.rs: one shard's records, and what keeps
    them a tree below their master. */
module Trees {
  import opened Instance
  import opened Reparent

  /** The records of one shard, in order. */
  ghost function OfShard(nodes: seq<InstNode>, shard: string): seq<InstNode> {
    if nodes == [] then []
    else (if nodes[0].shard == shard then [nodes[0]] else []) + OfShard(nodes[1..], shard)
  }

  ghost function Roles(nodes: seq<InstNode>): seq<Role> {
    seq(|nodes|, i requires 0 <= i < |nodes| => nodes[i].role)
  }

  /** The records of one shard are a replication tree below `root`, with these roles. */
  ghost predicate ShardTree(nodes: seq<InstNode>, shard: string, root: string, roles: seq<Role>) {
    RootedAt(OfShard(nodes, shard), root) && Roles(OfShard(nodes, shard)) == roles
  }

  /** The roles of a fresh shard. */
  function FreshRoles(async: bool): seq<Role> {
    if async then [Master, Read, Offline] else [Master, Read]
  }

  lemma {:induction false} OfShardMembers(nodes: seq<InstNode>, shard: string)
    ensures forall n :: n in OfShard(nodes, shard) <==> n in nodes && n.shard == shard
  {
    if nodes != [] {
      OfShardMembers(nodes[1..], shard);
      assert nodes == [nodes[0]] + nodes[1..];
    }
  }

  lemma {:induction false} OfShardAppend(a: seq<InstNode>, b: seq<InstNode>, shard: string)
    ensures OfShard(a + b, shard) == OfShard(a, shard) + OfShard(b, shard)
  {
    hide OfShard;
    OfShardStep(a, shard);
    OfShardStep(a + b, shard);
    if a == [] {
      assert a + b == b;
      assert [] + OfShard(b, shard) == OfShard(b, shard);
    } else {
      var rest := a[1..];
      assert (a + b)[1..] == rest + b && (a + b)[0] == a[0];
      OfShardAppend(rest, b, shard);
      assert [a[0]] + (OfShard(rest, shard) + OfShard(b, shard)) == ([a[0]] + OfShard(rest, shard)) + OfShard(b, shard);
    }
  }

  lemma {:induction false} OfShardStep(nodes: seq<InstNode>, shard: string)
    ensures OfShard(nodes, shard) ==
      if nodes == [] then []
      else if nodes[0].shard == shard then [nodes[0]] + OfShard(nodes[1..], shard)
      else OfShard(nodes[1..], shard)
  {
  }

  lemma {:induction false} OfShardNone(nodes: seq<InstNode>, shard: string)
    requires forall n :: n in nodes ==> n.shard != shard
    ensures OfShard(nodes, shard) == []
  {
    if nodes != [] {
      assert nodes[0] in nodes;
      OfShardNone(nodes[1..], shard);
    }
  }

  lemma {:induction false} OfShardAll(nodes: seq<InstNode>, shard: string)
    requires forall n :: n in nodes ==> n.shard == shard
    ensures OfShard(nodes, shard) == nodes
  {
    if nodes != [] {
      OfShardAll(nodes[1..], shard);
    }
  }

  lemma {:induction false} OfShardUnique(nodes: seq<InstNode>, shard: string)
    requires UniqueContainers(nodes)
    ensures UniqueContainers(OfShard(nodes, shard))
  {
    if nodes != [] {
      OfShardUnique(nodes[1..], shard);
      OfShardMembers(nodes[1..], shard);
      assert forall n :: n in nodes[1..] ==> n.container != nodes[0].container;
    }
  }

  /** Nothing but ports and server ids differs. */
  ghost predicate SamePlaces(nodes: seq<InstNode>, nodes': seq<InstNode>) {
    && |nodes'| == |nodes|
    && forall i :: 0 <= i < |nodes| ==> SamePlace(nodes[i], nodes'[i])
  }

  ghost predicate SamePlace(n: InstNode, n': InstNode) {
    n'.container == n.container && n'.role == n.role && n'.shard == n.shard && n'.parent == n.parent
  }

  lemma {:induction false} OfShardSame(nodes: seq<InstNode>, nodes': seq<InstNode>, shard: string)
    requires SamePlaces(nodes, nodes')
    ensures SamePlaces(OfShard(nodes, shard), OfShard(nodes', shard))
  {
    if nodes != [] {
      assert SamePlace(nodes[0], nodes'[0]);
      OfShardSame(nodes[1..], nodes'[1..], shard);
    }
  }

  // ----- Trees -----

  /** A node directly below a node that climbs to the root climbs too. */
  lemma {:induction false} ChildClimbs(nodes: seq<InstNode>, n: InstNode, root: string, k: nat)
    requires UniqueContainers(nodes) && n in nodes && n.container != root && Climbs(nodes, n.parent, root, k)
    ensures Climbs(nodes, n.container, root, k + 1)
  {
    ParentOfMember(nodes, n);
  }

  /** All slaves directly below the master. */
  lemma {:induction false} StarIsTree(nodes: seq<InstNode>, root: string)
    requires OneMaster(nodes, root) && forall n :: n in nodes ==> n.container == root || n.parent == root
    ensures RootedAt(nodes, root)
  {
    forall c | c in Containers(nodes) ensures exists k :: Climbs(nodes, c, root, k) {
      assert Climbs(nodes, root, root, 0);
      if c != root {
        var n :| n in nodes && n.container == c;
        ChildClimbs(nodes, n, root, 0);
      }
    }
  }

  lemma {:induction false} ParentStays(nodes: seq<InstNode>, n: InstNode, c: string)
    requires c in Containers(nodes)
    ensures ParentOf(nodes + [n], c) == ParentOf(nodes, c)
  {
    assert (nodes + [n])[0] == nodes[0];
    if nodes[0].container != c {
      assert c in Containers(nodes[1..]) by {
        var m :| m in nodes && m.container == c;
        assert m in nodes[1..];
      }
      ParentStays(nodes[1..], n, c);
      assert (nodes + [n])[1..] == nodes[1..] + [n];
    }
  }

  lemma {:induction false} StillClimbs(nodes: seq<InstNode>, n: InstNode, c: string, root: string, k: nat)
    requires Climbs(nodes, c, root, k)
    ensures Climbs(nodes + [n], c, root, k)
    decreases k
  {
    ParentStays(nodes, n, c);
    assert forall m :: m in nodes ==> m in nodes + [n];
    if k > 0 {
      StillClimbs(nodes, n, ParentOf(nodes, c), root, k - 1);
    }
  }

  lemma {:induction false} MasterStays(nodes: seq<InstNode>, n: InstNode, m: string)
    requires OneMaster(nodes, m) && UniqueContainers(nodes + [n]) && n.role != Master
    ensures OneMaster(nodes + [n], m)
  {
    var nodes' := nodes + [n];
    assert forall o :: o in nodes' <==> o in nodes || o == n;
    var i :| 0 <= i < |nodes| && nodes[i].container == m;
    assert nodes'[i] != n && nodes'[i].container != nodes'[|nodes|].container;
  }

  /** A slave below any node of a tree extends the tree. */
  lemma {:induction false} GrownTree(nodes: seq<InstNode>, n: InstNode, root: string)
    requires RootedAt(nodes, root) && UniqueContainers(nodes + [n]) && n.role != Master
    requires n.parent in Containers(nodes)
    ensures RootedAt(nodes + [n], root)
  {
    hide Climbs, OneMaster;
    MasterStays(nodes, n, root);
    var nodes' := nodes + [n];
    forall c | c in Containers(nodes') ensures exists k :: Climbs(nodes', c, root, k) {
      if c in Containers(nodes) {
        var k :| Climbs(nodes, c, root, k);
        StillClimbs(nodes, n, c, root, k);
      } else {
        var k :| Climbs(nodes, n.parent, root, k);
        StillClimbs(nodes, n, n.parent, root, k);
        RootIsInside(nodes, root);
        assert n in nodes' && n.container == c;
        ChildClimbs(nodes', n, root, k);
      }
    }
  }

  lemma {:induction false} RootIsInside(nodes: seq<InstNode>, root: string)
    requires OneMaster(nodes, root)
    ensures root in Containers(nodes)
  {
  }

  lemma {:induction false} SameMaster(nodes: seq<InstNode>, nodes': seq<InstNode>, m: string)
    requires OneMaster(nodes, m) && SamePlaces(nodes, nodes')
    ensures OneMaster(nodes', m)
  {
    var i :| 0 <= i < |nodes| && nodes[i].container == m;
    assert nodes'[i] in nodes';
    forall n | n in nodes' ensures n.role == Master <==> n.container == m {
      var k :| 0 <= k < |nodes'| && nodes'[k] == n;
      assert nodes[k] in nodes;
    }
  }

  lemma {:induction false} SameContainers(nodes: seq<InstNode>, nodes': seq<InstNode>)
    requires SamePlaces(nodes, nodes')
    ensures Containers(nodes') == Containers(nodes)
  {
    forall i | 0 <= i < |nodes| ensures nodes[i].container in Containers(nodes') {
      assert nodes'[i] in nodes' && SamePlace(nodes[i], nodes'[i]);
    }
    forall i | 0 <= i < |nodes| ensures nodes'[i].container in Containers(nodes) {
      assert nodes[i] in nodes && SamePlace(nodes[i], nodes'[i]);
    }
  }

  lemma {:induction false} SameParents(nodes: seq<InstNode>, nodes': seq<InstNode>, c: string)
    requires SamePlaces(nodes, nodes')
    ensures ParentOf(nodes', c) == ParentOf(nodes, c)
  {
    if nodes != [] {
      assert SamePlace(nodes[0], nodes'[0]);
      SameParents(nodes[1..], nodes'[1..], c);
    }
  }

  lemma {:induction false} SameClimb(nodes: seq<InstNode>, nodes': seq<InstNode>, c: string, root: string, k: nat)
    requires SamePlaces(nodes, nodes') && Climbs(nodes, c, root, k)
    ensures Climbs(nodes', c, root, k)
    decreases k
  {
    SameContainers(nodes, nodes');
    SameParents(nodes, nodes', c);
    if k > 0 {
      SameClimb(nodes, nodes', ParentOf(nodes, c), root, k - 1);
    }
  }

  lemma {:induction false} SameTree(nodes: seq<InstNode>, nodes': seq<InstNode>, root: string)
    requires RootedAt(nodes, root) && SamePlaces(nodes, nodes')
    ensures RootedAt(nodes', root)
  {
    hide Climbs, OneMaster, SamePlaces;
    SameMaster(nodes, nodes', root);
    SameContainers(nodes, nodes');
    forall c | c in Containers(nodes') ensures exists k :: Climbs(nodes', c, root, k) {
      var k :| Climbs(nodes, c, root, k);
      SameClimb(nodes, nodes', c, root, k);
    }
  }
}
