/** The waves of a plan: what the scheduler's dependency counting amounts to. `Wave(nodes, k)` is
    what the k-th round may start; the theorems tie it to longest dependency chains. */
module Waves {
  import opened Graph

  /** The nodes of the first `k` waves. */
  ghost function Done(nodes: Plan, k: nat): set<NodeId>
    decreases k, 0
  {
    if k == 0 then {} else Done(nodes, k - 1) + Wave(nodes, k - 1)
  }

  /** The nodes whose dependencies all lie in earlier waves and that are not there themselves. */
  ghost function Wave(nodes: Plan, k: nat): set<NodeId>
    decreases k, 1
  {
    set n | n in nodes && n.id !in Done(nodes, k) && (forall d :: d in n.deps ==> d in Done(nodes, k)) :: n.id
  }

  lemma {:induction false} DoneNext(nodes: Plan, k: nat)
    ensures Done(nodes, k) == if k == 0 then {} else Done(nodes, k - 1) + Wave(nodes, k - 1)
  {
  }

  lemma {:induction false} DoneMonotone(nodes: Plan, j: nat, k: nat)
    requires j <= k
    ensures Done(nodes, j) <= Done(nodes, k) <= Ids(nodes)
    decreases k
  {
    if k > 0 {
      DoneMonotone(nodes, if j < k then j else k - 1, k - 1);
    }
  }

  lemma {:induction false} DoneSplits(nodes: Plan, id: NodeId, k: nat) returns (j: nat)
    requires id in Done(nodes, k)
    ensures j < k && id in Wave(nodes, j)
  {
    if id in Done(nodes, k - 1) {
      j := DoneSplits(nodes, id, k - 1);
    } else {
      j := k - 1;
    }
  }

  lemma {:induction false} InItsWave(nodes: Plan, id: NodeId, j: nat)
    requires id in Wave(nodes, j)
    ensures id in Done(nodes, j + 1) && id !in Done(nodes, j)
  {
  }

  lemma {:induction false} NextWave(nodes: Plan, n: TaskNode, k: nat)
    requires UniqueIds(nodes) && n in nodes
    ensures n.id in Done(nodes, k + 1) <==> n.id in Done(nodes, k) || forall d :: d in n.deps ==> d in Done(nodes, k)
    ensures n.id in Wave(nodes, k) <==> n.id !in Done(nodes, k) && forall d :: d in n.deps ==> d in Done(nodes, k)
  {
    if n.id in Wave(nodes, k) {
      var m :| m in nodes && m.id == n.id && forall d :: d in m.deps ==> d in Done(nodes, k);
      DepsOfMember(nodes, n);
      DepsOfMember(nodes, m);
    }
  }

  // ----- Waves are levels: the length of the longest dependency chain -----

  /** The longest chain of dependencies below `id` has exactly `k` edges. */
  ghost predicate LongestChain(nodes: Plan, id: NodeId, k: nat) {
    && (exists w :: Walk(nodes, w) && w[0] == id && |w| == k + 1)
    && (forall w :: Walk(nodes, w) && w[0] == id ==> |w| <= k + 1)
  }

  lemma {:induction false} ChainOfWave(nodes: Plan, n: TaskNode, k: nat) returns (w: seq<NodeId>)
    requires UniqueIds(nodes) && n in nodes && n.id in Wave(nodes, k)
    ensures Walk(nodes, w) && w[0] == n.id && |w| == k + 1
    decreases k
  {
    hide Done, Wave;
    NextWave(nodes, n, k);
    DepsOfMember(nodes, n);
    if k == 0 {
      w := [n.id];
    } else {
      NextWave(nodes, n, k - 1);
      DoneNext(nodes, k);
      var d :| d in n.deps && d !in Done(nodes, k - 1);
      DoneMonotone(nodes, k, k);
      var m :| m in nodes && m.id == d;
      var v := ChainOfWave(nodes, m, k - 1);
      w := [n.id] + v;
    }
  }

  lemma {:induction false} WalkBound(nodes: Plan, w: seq<NodeId>, k: nat)
    requires UniqueIds(nodes) && Walk(nodes, w) && w[0] in Done(nodes, k)
    ensures |w| <= k
    decreases k
  {
    hide Done, Wave;
    DoneMonotone(nodes, k, k);
    DoneNext(nodes, k);
    var n :| n in nodes && n.id == w[0];
    DepsOfMember(nodes, n);
    if |w| > 1 {
      if w[0] in Done(nodes, k - 1) {
        WalkBound(nodes, w, k - 1);
      } else {
        NextWave(nodes, n, k - 1);
        assert w[1] in DepsOf(nodes, w[0]);
        WalkBound(nodes, w[1..], k - 1);
      }
    }
  }

  /** Wave = level: a node of the k-th wave has a longest dependency chain of exactly k edges. */
  lemma {:induction false} WaveIsLevel(nodes: Plan, id: NodeId, k: nat)
    requires UniqueIds(nodes) && id in Wave(nodes, k)
    ensures LongestChain(nodes, id, k)
  {
    var n :| n in nodes && n.id == id;
    var w := ChainOfWave(nodes, n, k);
    forall v | Walk(nodes, v) && v[0] == id ensures |v| <= k + 1 {
      WalkBound(nodes, v, k + 1);
    }
  }

  // ----- Progress: a nonempty remainder of an acyclic closed plan has a ready node -----

  /** A part of the plan that holds all dependencies of its nodes. */
  ghost predicate ClosedPart(nodes: Plan, part: set<NodeId>) {
    part <= Ids(nodes) && forall n, d :: n in nodes && n.id in part && d in n.deps ==> d in part
  }

  lemma {:induction false} HeldBack(nodes: Plan, part: set<NodeId>, k: nat, x: NodeId) returns (d: NodeId)
    requires UniqueIds(nodes) && ClosedPart(nodes, part) && x in part - Done(nodes, k) && x !in Wave(nodes, k)
    ensures d in DepsOf(nodes, x) && d in part - Done(nodes, k)
  {
    hide Done, Wave;
    assert x in Ids(nodes);
    var n :| n in nodes && n.id == x;
    NextWave(nodes, n, k);
    DepsOfMember(nodes, n);
    d :| d in n.deps && d !in Done(nodes, k);
  }

  /** A walk of `len` nodes that never leaves the remainder of the part, if nothing in it is ready. */
  lemma {:induction false} WalkInRemainder(nodes: Plan, part: set<NodeId>, k: nat, x: NodeId, len: nat)
    returns (w: seq<NodeId>)
    requires UniqueIds(nodes) && ClosedPart(nodes, part)
    requires forall y :: y in part ==> y !in Wave(nodes, k)
    requires x in part - Done(nodes, k)
    ensures Walk(nodes, w) && |w| == len + 1 && w[0] == x
    ensures forall y :: y in w ==> y in part - Done(nodes, k)
    decreases len
  {
    if len == 0 {
      w := [x];
    } else {
      hide Done, Wave, UniqueIds, ClosedPart;
      var d := HeldBack(nodes, part, k, x);
      var v := WalkInRemainder(nodes, part, k, d, len - 1);
      w := [x] + v;
    }
  }

  lemma {:induction false} Pigeonhole(w: seq<NodeId>, s: set<NodeId>)
    requires (forall y :: y in w ==> y in s) && !Repeats(w)
    ensures |w| <= |s|
    decreases |w|
  {
    if |w| > 0 {
      var v := w[1..];
      assert forall i, j :: 0 <= i < j < |v| ==> v[i] == w[i + 1] && v[j] == w[j + 1];
      forall y | y in v ensures y in s - {w[0]} {
        var i :| 0 <= i < |v| && v[i] == y;
        assert w[i + 1] == y;
      }
      Pigeonhole(v, s - {w[0]});
    }
  }

  lemma {:induction false} Missing<T>(a: set<T>, b: set<T>) returns (x: T)
    requires a <= b && a != b
    ensures x in b - a
  {
    assert exists y :: y in b && y !in a by {
      assert a != b;
    }
    x :| x in b && x !in a;
  }

  /** As long as a closed part is not done, each wave takes up some of it. */
  lemma {:induction false} PartProgress(nodes: Plan, part: set<NodeId>, k: nat) returns (x: NodeId)
    requires UniqueIds(nodes) && ClosedPart(nodes, part) && Acyclic(nodes)
    requires !(part <= Done(nodes, k))
    ensures x in part && x in Wave(nodes, k)
  {
    if forall y :: y in part ==> y !in Wave(nodes, k) {
      var rest := part - Done(nodes, k);
      var y := Missing(Done(nodes, k) * part, part);
      var w := WalkInRemainder(nodes, part, k, y, |rest|);
      Pigeonhole(w, rest);
      assert false;
    }
    x :| x in part && x in Wave(nodes, k);
  }

  lemma {:induction false} WholePart(nodes: Plan)
    requires Closed(nodes)
    ensures ClosedPart(nodes, Ids(nodes))
  {
  }

  lemma {:induction false} Progress(nodes: Plan, k: nat)
    requires UniqueIds(nodes) && Closed(nodes) && Acyclic(nodes)
    requires Done(nodes, k) != Ids(nodes)
    ensures Wave(nodes, k) != {}
  {
    DoneMonotone(nodes, k, k);
    WholePart(nodes);
    var x := PartProgress(nodes, Ids(nodes), k);
  }

  /** Every wave adds a node of the part until all of it is done. */
  lemma {:induction false} PartGrows(nodes: Plan, part: set<NodeId>, k: nat)
    requires UniqueIds(nodes) && ClosedPart(nodes, part) && Acyclic(nodes)
    ensures part <= Done(nodes, k) || |part * Done(nodes, k)| >= k
    decreases k
  {
    hide Done, Wave, ClosedPart, Acyclic, UniqueIds;
    if k > 0 && !(part <= Done(nodes, k)) {
      var j := k - 1;
      DoneMonotone(nodes, j, k);
      PartGrows(nodes, part, j);
      var x := PartProgress(nodes, part, j);
      InItsWave(nodes, x, j);
      StrictlyLarger(part * Done(nodes, j), part * Done(nodes, k), x);
    }
  }

  /** In an acyclic plan, every node of a closed part has its wave. */
  lemma {:induction false} HasWave(nodes: Plan, part: set<NodeId>, id: NodeId) returns (k: nat)
    requires UniqueIds(nodes) && ClosedPart(nodes, part) && Acyclic(nodes) && id in part
    ensures id in Wave(nodes, k)
  {
    hide Done, Wave, ClosedPart, Acyclic, UniqueIds;
    var size := |part| + 1;
    PartGrows(nodes, part, size);
    SubsetSize(part * Done(nodes, size), part);
    k := DoneSplits(nodes, id, size);
  }

  lemma {:induction false} StrictlyLarger<T>(a: set<T>, b: set<T>, x: T)
    requires a <= b && x in b && x !in a
    ensures |a| + 1 <= |b|
  {
    SubsetSize(a + {x}, b);
  }

  lemma {:induction false} SubsetSize<T>(a: set<T>, b: set<T>)
    requires a <= b
    ensures |a| <= |b|
    decreases a
  {
    if a != {} {
      var x :| x in a;
      SubsetSize(a - {x}, b - {x});
    }
  }

  /** In a closed acyclic plan every node belongs to exactly the wave of its longest chain. */
  lemma {:induction false} LevelIsWave(nodes: Plan, id: NodeId, k: nat)
    requires UniqueIds(nodes) && Closed(nodes) && Acyclic(nodes) && id in Ids(nodes)
    ensures id in Wave(nodes, k) <==> LongestChain(nodes, id, k)
  {
    hide Done, Wave, Acyclic, Closed, ClosedPart, UniqueIds;
    WholePart(nodes);
    var j := HasWave(nodes, Ids(nodes), id);
    WaveIsLevel(nodes, id, j);
    if LongestChain(nodes, id, k) {
      assert j == k by {
        var v :| Walk(nodes, v) && v[0] == id && |v| == j + 1;
        var w :| Walk(nodes, w) && w[0] == id && |w| == k + 1;
      }
    }
    if id in Wave(nodes, k) {
      WaveIsLevel(nodes, id, k);
    }
  }

  lemma {:induction false} EmptyWaveMeansDone(nodes: Plan, k: nat)
    requires UniqueIds(nodes) && Closed(nodes) && Acyclic(nodes) && Wave(nodes, k) == {}
    ensures Done(nodes, k) == Ids(nodes)
  {
    if Done(nodes, k) != Ids(nodes) {
      Progress(nodes, k);
    }
  }

  // ----- Plans that come with their levels -----

  ghost predicate OnLevel(level: map<NodeId, nat>, n: TaskNode) {
    && n.id in level
    && (forall d :: d in n.deps ==> d in level && level[d] < level[n.id])
    && (level[n.id] > 0 ==> exists d :: d in n.deps && d in level && level[d] == level[n.id] - 1)
  }

  /** `level` names the wave of every node: one above the highest dependency, 0 without any. */
  ghost predicate Levels(nodes: Plan, level: map<NodeId, nat>) {
    level.Keys == Ids(nodes) && forall n :: n in nodes ==> OnLevel(level, n)
  }

  ghost function Below(level: map<NodeId, nat>, k: nat): set<NodeId> {
    set id | id in level && level[id] < k
  }

  lemma {:induction false} LevelStep(nodes: Plan, level: map<NodeId, nat>, k: nat)
    requires UniqueIds(nodes) && Levels(nodes, level) && Done(nodes, k) == Below(level, k)
    ensures Wave(nodes, k) == set id | id in level && level[id] == k
  {
    forall id | id in Ids(nodes) ensures id in Wave(nodes, k) <==> level[id] == k {
      var n :| n in nodes && n.id == id;
      assert OnLevel(level, n);
      NextWave(nodes, n, k);
    }
    DoneMonotone(nodes, k, k + 1);
  }

  /** With levels at hand, the k-th wave is level k. */
  lemma {:induction false} LevelsAreWaves(nodes: Plan, level: map<NodeId, nat>, k: nat)
    requires UniqueIds(nodes) && Levels(nodes, level)
    ensures Done(nodes, k) == Below(level, k)
    ensures Wave(nodes, k) == set id | id in level && level[id] == k
    decreases k
  {
    hide Done, Wave, Levels, UniqueIds;
    DoneNext(nodes, k);
    if k > 0 {
      LevelsAreWaves(nodes, level, k - 1);
      assert Below(level, k) == Below(level, k - 1) + Wave(nodes, k - 1);
    }
    LevelStep(nodes, level, k);
  }

  lemma {:induction false} LevelledIsAcyclic(nodes: Plan, level: map<NodeId, nat>)
    requires UniqueIds(nodes) && Levels(nodes, level)
    ensures Acyclic(nodes) && Closed(nodes)
  {
    forall w | Walk(nodes, w) ensures !Repeats(w) {
      if |w| > 1 {
        forall i, j | 0 <= i < j < |w| ensures w[i] != w[j] {
          LevelsFall(nodes, level, w, i, j);
        }
      }
    }
  }

  lemma {:induction false} LevelDrops(nodes: Plan, level: map<NodeId, nat>, a: NodeId, b: NodeId)
    requires UniqueIds(nodes) && Levels(nodes, level) && b in DepsOf(nodes, a)
    ensures a in level && b in level && level[b] < level[a]
  {
    if a !in Ids(nodes) {
      DepsOfUnknown(nodes, a);
    }
    var n :| n in nodes && n.id == a;
    assert OnLevel(level, n);
    DepsOfMember(nodes, n);
  }

  lemma {:induction false} LevelsFall(nodes: Plan, level: map<NodeId, nat>, w: seq<NodeId>, i: nat, j: nat)
    requires UniqueIds(nodes) && Levels(nodes, level) && Walk(nodes, w) && i < j < |w|
    ensures w[i] in level && w[j] in level && level[w[j]] < level[w[i]]
    decreases j
  {
    hide Levels, UniqueIds, DepsOf;
    var p := j - 1;
    assert w[j] in DepsOf(nodes, w[p]);
    LevelDrops(nodes, level, w[p], w[j]);
    if i < p {
      LevelsFall(nodes, level, w, i, p);
    }
  }
}
