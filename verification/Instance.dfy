/** Instance records of src/instance.rs, as far as topology and switchover use them. */
module Instance {
  import opened Wrappers

  datatype Role = Master | Read | Offline | Stats | Backup {
    predicate IsOffline() {
      Offline? || Stats? || Backup?
    }
  }

  datatype InstNode = InstNode(
    container: string, role: Role, hostPort: nat, rpcHostPort: nat, serverId: nat, shard: string, parent: string)

  /** A server as its creation needs it: what it follows, nothing for a master. */
  datatype Server = Server(container: string, serverId: nat, source: Option<string>)

  datatype SlaveSpec = SlaveSpec(container: string, serverId: nat)

  /** One shard of several: its master, its read slave and, for async instances, its offline slave. */
  datatype Group = Group(masterC: string, readC: string, offlineC: Option<string>, masterSid: nat)

  /** What the records say of the servers to build. */
  ghost function Registered(nodes: seq<InstNode>): seq<Server> {
    seq(|nodes|, i requires 0 <= i < |nodes| => ServerOf(nodes[i]))
  }

  function ServerOf(n: InstNode): Server {
    Server(n.container, n.serverId, if n.parent == "" then None else Some(n.parent))
  }

  ghost function GroupServers(g: Group): seq<Server> {
    [Server(g.masterC, g.masterSid, None), Server(g.readC, g.masterSid + 1, Some(g.masterC))]
    + match g.offlineC
      case None => []
      case Some(c) => [Server(c, g.masterSid + 2, Some(g.masterC))]
  }

  /** The servers of the first `n` shards. */
  ghost function AllServers(groups: seq<Group>, n: nat): seq<Server>
    requires n <= |groups|
    decreases n
  {
    if n == 0 then [] else AllServers(groups, n - 1) + GroupServers(groups[n - 1])
  }

  lemma {:induction false} FirstServers(groups: seq<Group>, g: Group, n: nat)
    requires n <= |groups|
    ensures AllServers(groups + [g], n) == AllServers(groups, n)
    decreases n
  {
    if n > 0 {
      FirstServers(groups, g, n - 1);
    }
  }

  lemma {:induction false} MoreServers(groups: seq<Group>, g: Group)
    ensures AllServers(groups + [g], |groups| + 1) == AllServers(groups, |groups|) + GroupServers(g)
  {
    FirstServers(groups, g, |groups|);
  }

  ghost function Containers(nodes: seq<InstNode>): set<string> {
    set n | n in nodes :: n.container
  }

  ghost predicate UniqueContainers(nodes: seq<InstNode>) {
    forall i, j :: 0 <= i < j < |nodes| ==> nodes[i].container != nodes[j].container
  }

  ghost predicate OneMaster(nodes: seq<InstNode>, master: string) {
    && UniqueContainers(nodes) && master in Containers(nodes)
    && forall n :: n in nodes ==> (n.role == Master <==> n.container == master)
  }

  /** `RdsInstance::master`: the first node with the master role. */
  function FirstMaster(nodes: seq<InstNode>): Option<InstNode> {
    if nodes == [] then None
    else if nodes[0].role == Master then Some(nodes[0])
    else FirstMaster(nodes[1..])
  }

  lemma {:induction false} FirstMasterIsIt(nodes: seq<InstNode>, master: string)
    requires OneMaster(nodes, master)
    ensures FirstMaster(nodes).Some? && FirstMaster(nodes).value in nodes
    ensures FirstMaster(nodes).value.container == master
  {
    var m :| m in nodes && m.container == master;
    MasterFound(nodes, m);
  }

  lemma {:induction false} MasterFound(nodes: seq<InstNode>, m: InstNode)
    requires m in nodes && m.role == Master
    ensures FirstMaster(nodes).Some? && FirstMaster(nodes).value in nodes && FirstMaster(nodes).value.role == Master
  {
    if nodes[0].role != Master {
      assert m in nodes[1..];
      MasterFound(nodes[1..], m);
    }
  }
}
