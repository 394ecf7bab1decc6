/** Managed switchover of src/instance.rs: the SQL phase that moves the writable role from the old
    master to a candidate, and the rewrite of the registered roles and parents. */
module Reparent {
  import opened Wrappers
  import opened Instance

  // ----- The registered topology -----

  /** What the switchover does to one record. */
  function Rewrite(n: InstNode, was: string, cand: string): (r: InstNode)
    ensures r.container == n.container
  {
    if n.container == was && n.role == Master then n.(role := Read, parent := cand)
    else if n.container == cand && n.role != Master then n.(role := Master, parent := "")
    else if n.role != Master && n.container != was && n.parent == was then n.(parent := cand)
    else n
  }

  function Rewritten(nodes: seq<InstNode>, was: string, cand: string): (r: seq<InstNode>)
    ensures |r| == |nodes| && forall i :: 0 <= i < |nodes| ==> r[i] == Rewrite(nodes[i], was, cand)
  {
    if nodes == [] then [] else [Rewrite(nodes[0], was, cand)] + Rewritten(nodes[1..], was, cand)
  }

  function ParentOf(nodes: seq<InstNode>, c: string): string {
    if nodes == [] then "" else if nodes[0].container == c then nodes[0].parent else ParentOf(nodes[1..], c)
  }

  lemma {:induction false} ParentOfMember(nodes: seq<InstNode>, n: InstNode)
    requires UniqueContainers(nodes) && n in nodes
    ensures ParentOf(nodes, n.container) == n.parent
  {
    if nodes[0] != n {
      var i :| 0 <= i < |nodes| && nodes[i] == n;
      assert nodes[1..][i - 1] == n;
      ParentOfMember(nodes[1..], n);
    }
  }

  /** Following parents from `c` arrives at `root` after exactly `k` steps. */
  ghost predicate Climbs(nodes: seq<InstNode>, c: string, root: string, k: nat)
    decreases k
  {
    c in Containers(nodes) && if k == 0 then c == root else c != root && Climbs(nodes, ParentOf(nodes, c), root, k - 1)
  }

  /** A replication tree of any depth: one master, and every node replicates from it, directly or not. */
  ghost predicate RootedAt(nodes: seq<InstNode>, root: string) {
    OneMaster(nodes, root) && forall c :: c in Containers(nodes) ==> exists k :: Climbs(nodes, c, root, k)
  }

  lemma {:induction false} RewriteKeepsContainers(nodes: seq<InstNode>, was: string, cand: string)
    ensures Containers(Rewritten(nodes, was, cand)) == Containers(nodes)
    ensures UniqueContainers(nodes) ==> UniqueContainers(Rewritten(nodes, was, cand))
  {
    hide Rewrite, Rewritten;
    var r := Rewritten(nodes, was, cand);
    forall c | c in Containers(nodes) ensures c in Containers(r) {
      var i :| 0 <= i < |nodes| && nodes[i].container == c;
      assert r[i] in r;
    }
    forall c | c in Containers(r) ensures c in Containers(nodes) {
      var i :| 0 <= i < |r| && r[i].container == c;
      assert nodes[i] in nodes;
    }
  }

  lemma {:induction false} RewrittenParent(nodes: seq<InstNode>, was: string, cand: string, n: InstNode)
    requires OneMaster(nodes, was) && cand in Containers(nodes) && cand != was && n in nodes
    ensures ParentOf(Rewritten(nodes, was, cand), n.container) == Rewrite(n, was, cand).parent
  {
    hide Rewrite, Rewritten, ParentOf;
    var r := Rewritten(nodes, was, cand);
    var i :| 0 <= i < |nodes| && nodes[i] == n;
    assert r[i] in r;
    RewriteKeepsContainers(nodes, was, cand);
    ParentOfMember(r, r[i]);
  }

  lemma {:induction false} ClimbsToCandidate(
      nodes: seq<InstNode>, was: string, cand: string, c: string, k: nat)
    returns (k': nat)
    requires OneMaster(nodes, was) && cand in Containers(nodes) && cand != was
    requires Climbs(nodes, c, was, k)
    ensures Climbs(Rewritten(nodes, was, cand), c, cand, k')
    decreases k
  {
    hide Rewritten, ParentOf;
    var r := Rewritten(nodes, was, cand);
    RewriteKeepsContainers(nodes, was, cand);
    var n :| n in nodes && n.container == c;
    ParentOfMember(nodes, n);
    RewrittenParent(nodes, was, cand, n);
    if c == cand {
      k' := 0;
    } else if c == was || n.parent == was {
      assert Climbs(r, cand, cand, 0);
      k' := 1;
    } else {
      k' := ClimbsToCandidate(nodes, was, cand, n.parent, k - 1);
      k' := k' + 1;
    }
  }

  lemma {:induction false} CandidateIsMaster(nodes: seq<InstNode>, was: string, cand: string)
    requires OneMaster(nodes, was) && cand in Containers(nodes) && cand != was
    ensures OneMaster(Rewritten(nodes, was, cand), cand)
  {
    hide Rewritten, UniqueContainers;
    var r := Rewritten(nodes, was, cand);
    RewriteKeepsContainers(nodes, was, cand);
    forall m | m in r ensures m.role == Master <==> m.container == cand {
      var i :| 0 <= i < |r| && r[i] == m;
      assert nodes[i] in nodes;
    }
  }

  /** Re-rooting: from any replication tree rooted at the old master, whatever its depth and wherever
      the candidate sits in it, the rewrite yields a tree on the same containers, rooted at the
      candidate, with exactly one master. */
  lemma {:induction false} RerootsTree(nodes: seq<InstNode>, was: string, cand: string)
    requires RootedAt(nodes, was) && cand in Containers(nodes) && cand != was
    ensures RootedAt(Rewritten(nodes, was, cand), cand)
    ensures Containers(Rewritten(nodes, was, cand)) == Containers(nodes)
  {
    hide Climbs, OneMaster, Rewritten, Containers;
    var r := Rewritten(nodes, was, cand);
    RewriteKeepsContainers(nodes, was, cand);
    CandidateIsMaster(nodes, was, cand);
    forall c | c in Containers(r) ensures exists k :: Climbs(r, c, cand, k) {
      var k :| Climbs(nodes, c, was, k);
      var k' := ClimbsToCandidate(nodes, was, cand, c, k);
    }
  }

  /** The record comes through two opposite switches. */
  predicate Restorable(n: InstNode, was: string, cand: string) {
    if n.container == was then n.parent == ""
    else if n.container == cand then n.role == Read && n.parent == was
    else n.parent != cand
  }

  lemma {:induction false} RestoredIff(nodes: seq<InstNode>, was: string, cand: string, n: InstNode)
    requires OneMaster(nodes, was) && cand != was && n in nodes
    ensures Rewrite(Rewrite(n, was, cand), cand, was) == n <==> Restorable(n, was, cand)
  {
  }

  /** Switching back restores every record exactly if the candidate was a read slave directly under
      the old master and without slaves of its own (and the old master had no parent recorded). */
  lemma {:induction false} SwitchingBackRestoresIff(nodes: seq<InstNode>, was: string, cand: string)
    requires OneMaster(nodes, was) && cand in Containers(nodes) && cand != was
    ensures Rewritten(Rewritten(nodes, was, cand), cand, was) == nodes <==>
      forall n :: n in nodes ==> Restorable(n, was, cand)
  {
    hide Restorable, Rewrite, OneMaster;
    var twice := Rewritten(Rewritten(nodes, was, cand), cand, was);
    forall i | 0 <= i < |nodes| ensures twice[i] == nodes[i] <==> Restorable(nodes[i], was, cand) {
      RestoredIff(nodes, was, cand, nodes[i]);
    }
    if twice == nodes {
      forall n | n in nodes ensures Restorable(n, was, cand) {
        var i :| 0 <= i < |nodes| && nodes[i] == n;
        assert twice[i] == nodes[i];
      }
    } else {
      var i :| 0 <= i < |nodes| && twice[i] != nodes[i];
      assert nodes[i] in nodes;
    }
  }

  /** The record is one of the two whose roles change. */
  predicate Swapped(n: InstNode, was: string, cand: string) {
    (n.container == was && n.role == Master) || (n.container == cand && n.role != Master)
  }

  // ----- The SQL phase -----

  /** The statements of a switchover, in order. */
  datatype Stage = Ping | Fence | StopSlave | ResetSlave | Unfence | Undo

  /** How a statement can come out; a reported error may hide that it took effect. */
  datatype Reply = Done | FailedWithoutEffect | FailedAfterEffect {
    predicate Applied() {
      !FailedWithoutEffect?
    }
  }

  datatype Outcome = NoMaster | SameNode | OldUnreachable | FenceFailed | PromoteFailed(at: Stage) | Switched

  datatype Snapshot = Snapshot(prevMaster: string, curMaster: string)

  /** Both servers accept writes. */
  predicate Split(writable: set<string>, was: string, cand: string) {
    was in writable && cand in writable
  }

  /** The old master has answered: it is fenced before the candidate is promoted. */
  predicate Alive(replies: Stage -> Reply) {
    replies(Ping) == Done
  }

  /** All statements up to the promotion were acknowledged. */
  predicate Promoted(replies: Stage -> Reply) {
    replies(StopSlave) == Done && replies(ResetSlave) == Done && replies(Unfence) == Done
  }

  /** How the SQL phase ends. */
  function Verdict(planned: bool, replies: Stage -> Reply): Outcome {
    if !Alive(replies) && planned then OldUnreachable
    else if Alive(replies) && replies(Fence) != Done then FenceFailed
    else if replies(StopSlave) != Done then PromoteFailed(StopSlave)
    else if replies(ResetSlave) != Done then PromoteFailed(ResetSlave)
    else if replies(Unfence) != Done then PromoteFailed(Unfence)
    else Switched
  }

  class Cluster {
    var nodes: seq<InstNode>
    // the servers that accept writes
    var writable: set<string>
    // the switchover snapshots, newest last
    var snapshots: seq<Snapshot>
    // every state of `writable` so far in this switchover
    ghost var seen: seq<set<string>>

    constructor (nodes: seq<InstNode>, writable: set<string>)
      ensures this.nodes == nodes && this.writable == writable && snapshots == []
    {
      this.nodes, this.writable, snapshots, seen := nodes, writable, [], [];
    }

    /** `SET GLOBAL read_only` on one server. */
    method SetReadOnly(c: string, on: bool, reply: Reply) returns (ok: bool)
      modifies this`writable, this`seen
      ensures ok <==> reply == Done
      ensures writable ==
        if !reply.Applied() then old(writable) else if on then old(writable) - {c} else old(writable) + {c}
      ensures seen == old(seen) + [writable]
    {
      if reply.Applied() {
        writable := if on then writable - {c} else writable + {c};
      }
      seen := seen + [writable];
      ok := reply == Done;
    }

    /** Fences the old master, promotes the candidate, and on failure makes the old master writable
        again. */
    method MoveWriter(master: string, cand: string, planned: bool, replies: Stage -> Reply) returns (r: Outcome)
      requires master != cand
      modifies this`writable, this`seen
      ensures r == Verdict(planned, replies)
      // who is writable in the end
      ensures cand in writable <==>
        cand in old(writable) || (r in {Switched, PromoteFailed(Unfence)} && replies(Unfence).Applied())
      ensures master in writable <==>
        if !Alive(replies) then master in old(writable)
        else if r == FenceFailed then master in old(writable) && !replies(Fence).Applied()
        else r.PromoteFailed? && replies(Undo).Applied()
      ensures forall c :: c != master && c != cand ==> (c in writable <==> c in old(writable))
      // single writer at every moment, if the candidate was read-only before: two servers accept
      // writes at some moment exactly if the promotion, all steps before it acknowledged, took effect
      // behind a reported error and was then undone on the old side, or if it took effect while an
      // old master that did not answer was writable after all
      ensures |seen| > 0 && seen[0] == old(writable) && seen[|seen| - 1] == writable
      ensures cand !in old(writable) ==> ((exists i :: 0 <= i < |seen| && Split(seen[i], master, cand)) <==>
        && replies(StopSlave) == Done && replies(ResetSlave) == Done
        && if Alive(replies) then
             replies(Fence) == Done && replies(Unfence) == FailedAfterEffect && replies(Undo).Applied()
           else !planned && master in old(writable) && replies(Unfence).Applied())
    {
      seen := [writable];
      var alive := Alive(replies);
      if !alive && planned {
        return OldUnreachable;
      }
      if alive {
        var fenced := SetReadOnly(master, true, replies(Fence));
        if !fenced {
          return FenceFailed;
        }
      }
      var failed: Option<Stage> := None;
      if replies(StopSlave) != Done {
        failed := Some(StopSlave);
      } else if replies(ResetSlave) != Done {
        failed := Some(ResetSlave);
      } else {
        var unfenced := SetReadOnly(cand, false, replies(Unfence));
        if !unfenced {
          failed := Some(Unfence);
        }
      }
      if failed.Some? {
        if alive {
          var _ := SetReadOnly(master, false, replies(Undo));
        }
        return PromoteFailed(failed.value);
      }
      return Switched;
    }

    /** Swaps the registered roles; the result says whether any record matched. */
    method SwapRoles(master: string, cand: string) returns (swapDone: bool)
      modifies this`nodes
      ensures nodes == Rewritten(old(nodes), master, cand)
      ensures swapDone <==> exists n :: n in old(nodes) && Swapped(n, master, cand)
    {
      swapDone := false;
      var i := 0;
      while i < |nodes|
        invariant 0 <= i <= |nodes| == |old(nodes)|
        invariant forall j :: 0 <= j < i ==> nodes[j] == Rewrite(old(nodes)[j], master, cand)
        invariant forall j :: i <= j < |nodes| ==> nodes[j] == old(nodes)[j]
        invariant swapDone <==> exists j :: 0 <= j < i && Swapped(old(nodes)[j], master, cand)
      {
        var n := nodes[i];
        if n.container == master && n.role == Master {
          nodes := nodes[i := n.(role := Read, parent := cand)];
          swapDone := true;
        } else if n.container == cand && n.role != Master {
          nodes := nodes[i := n.(role := Master, parent := "")];
          swapDone := true;
        } else if n.role != Master && n.container != master && n.parent == master {
          nodes := nodes[i := n.(parent := cand)];
        }
        i := i + 1;
      }
      assert nodes == Rewritten(old(nodes), master, cand);
    }

    /** The switchover. Registered roles change only in a run that switched; then the candidate is the
        writer and the records are rewritten. Re-hanging the old master is best effort. */
    method ReparentCore(cand: string, planned: bool, replies: Stage -> Reply) returns (r: Outcome)
      modifies this
      ensures r ==
        match FirstMaster(old(nodes))
        case None => NoMaster
        case Some(m) => if m.container == cand then SameNode else Verdict(planned, replies)
      ensures r != Switched ==> nodes == old(nodes) && snapshots == old(snapshots)
      ensures r in {NoMaster, SameNode, OldUnreachable} ==> writable == old(writable)
      ensures r == Switched ==>
        FirstMaster(old(nodes)).Some? &&
        var master := FirstMaster(old(nodes)).value.container;
        && master != cand && Promoted(replies) && (planned ==> Alive(replies))
        && cand in writable && (Alive(replies) ==> master !in writable)
        && nodes == Rewritten(old(nodes), master, cand)
        && snapshots == old(snapshots) + [Snapshot(master, cand)]
    {
      var m := FirstMaster(nodes);
      if m.None? {
        return NoMaster;
      }
      var master := m.value.container;
      if cand == master {
        return SameNode;
      }
      r := MoveWriter(master, cand, planned, replies);
      if r != Switched {
        return;
      }
      snapshots := snapshots + [Snapshot(master, cand)];
      FirstMasterMember(nodes);
      var swapDone := SwapRoles(master, cand);
      assert swapDone;
    }

    /** Back to the master before the latest switchover, as an unplanned switchover. */
    method Rollback(replies: Stage -> Reply) returns (r: Option<Outcome>)
      modifies this
      ensures r.Some? <==>
        old(snapshots) != [] && old(snapshots)[|old(snapshots)| - 1].prevMaster in Containers(old(nodes))
        && FirstMaster(old(nodes)).Some?
        && FirstMaster(old(nodes)).value.container != old(snapshots)[|old(snapshots)| - 1].prevMaster
      ensures r.Some? ==> r.value == Verdict(false, replies)
      ensures r.None? ==> nodes == old(nodes) && writable == old(writable)
      ensures r.Some? && r.value != Switched ==> nodes == old(nodes)
      ensures r.Some? && r.value == Switched ==>
        old(snapshots) != [] && FirstMaster(old(nodes)).Some?
        && var prev, cur := old(snapshots)[|old(snapshots)| - 1].prevMaster, FirstMaster(old(nodes)).value.container;
           prev in Containers(old(nodes)) && nodes == Rewritten(old(nodes), cur, prev) && prev in writable
    {
      if snapshots == [] {
        return None;
      }
      var prev := snapshots[|snapshots| - 1].prevMaster;
      if !exists n :: n in nodes && n.container == prev {
        return None;
      }
      var cur := FirstMaster(nodes);
      if cur.None? || cur.value.container == prev {
        return None;
      }
      var o := ReparentCore(prev, false, replies);
      r := Some(o);
    }
  }

  lemma {:induction false} FirstMasterMember(nodes: seq<InstNode>)
    requires FirstMaster(nodes).Some?
    ensures FirstMaster(nodes).value in nodes && FirstMaster(nodes).value.role == Master
  {
    if nodes[0].role != Master {
      FirstMasterMember(nodes[1..]);
      assert forall n :: n in nodes[1..] ==> n in nodes;
    }
  }

  /** A switchover and its rollback, both completed, end in a tree rooted at the old master again.
      Whether it is the same tree is the condition of `SwitchingBackRestoresIff`. */
  lemma {:induction false} RollbackReroots(nodes: seq<InstNode>, was: string, cand: string)
    requires RootedAt(nodes, was) && cand in Containers(nodes) && cand != was
    ensures var switched := Rewritten(nodes, was, cand);
      && FirstMaster(nodes).Some? && FirstMaster(nodes).value.container == was
      && FirstMaster(switched).Some? && FirstMaster(switched).value.container == cand
      && RootedAt(Rewritten(switched, cand, was), was)
  {
    FirstMasterIsIt(nodes, was);
    RerootsTree(nodes, was, cand);
    FirstMasterIsIt(Rewritten(nodes, was, cand), cand);
    RerootsTree(Rewritten(nodes, was, cand), cand, was);
  }
}
