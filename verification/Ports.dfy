/** Host port allocation of src/instance.rs: a counter that probes upwards, skips declared and occupied
    ports, and wraps at the end of its range. */
module Ports {
  const LOW: nat := 35_000
  const HIGH: nat := 60_000

  /** The ports that one instance record declares; 0 stands for none. Every proxy has two ports, listed
      one after the other; the older fields repeat the two of the first proxy. */
  datatype Declaration = Declaration(
    nodePorts: seq<nat>, rpcPorts: seq<nat>, proxyPorts: seq<nat>, accessPorts: seq<nat>, olderPorts: seq<nat>,
    serverIds: seq<nat>)

  function PortsOf(d: Declaration): seq<nat> {
    d.nodePorts + d.rpcPorts + d.proxyPorts + d.accessPorts + d.olderPorts
  }

  /** `p` stands in some field of `d`. */
  ghost predicate Declares(d: Declaration, p: nat) {
    p in d.nodePorts || p in d.rpcPorts || p in d.proxyPorts || p in d.accessPorts || p in d.olderPorts
  }

  /** `p` is declared by one of the instances. */
  ghost predicate Declared(instances: seq<Declaration>, p: nat) {
    p > 0 && exists d :: d in instances && Declares(d, p)
  }

  /** An allocation may return `p`. */
  ghost predicate Usable(instances: seq<Declaration>, free: nat -> bool, p: nat) {
    LOW <= p < HIGH && !Declared(instances, p) && free(p)
  }

  /** No port of [low, high) is usable. */
  ghost predicate NoneIn(instances: seq<Declaration>, free: nat -> bool, low: nat, high: nat) {
    forall p: nat :: low <= p < high ==> !Usable(instances, free, p)
  }

  /** `port` is the first usable port from `low` on. */
  ghost predicate FirstFrom(instances: seq<Declaration>, free: nat -> bool, low: nat, port: nat) {
    low <= port && Usable(instances, free, port) && NoneIn(instances, free, low, port)
  }

  /** How many candidates a counter that stands at `start` has before it wraps. */
  function Above(start: nat): nat {
    if start < HIGH then HIGH - start else 0
  }

  method DeclaredPorts(instances: seq<Declaration>) returns (s: set<nat>)
    ensures forall p: nat :: p in s <==> Declared(instances, p)
    ensures forall d, p: nat :: d in instances && p in d.nodePorts ==> p == 0 || p in s
    ensures forall d, p: nat :: d in instances && p in d.rpcPorts ==> p == 0 || p in s
    ensures forall d, p: nat :: d in instances && p in d.proxyPorts ==> p == 0 || p in s
    ensures forall d, p: nat :: d in instances && p in d.accessPorts ==> p == 0 || p in s
    ensures forall d, p: nat :: d in instances && p in d.olderPorts ==> p == 0 || p in s
  {
    s := {};
    var i := 0;
    while i < |instances|
      invariant 0 <= i <= |instances|
      invariant forall p: nat :: p in s <==> p > 0 && exists k :: 0 <= k < i && Declares(instances[k], p)
    {
      var ports := PortsOf(instances[i]);
      s := s + set p | p in ports && p > 0;
      i := i + 1;
    }
  }

  class Allocator {
    var nextPort: nat
    var nextServerId: nat
    var instances: seq<Declaration>

    constructor ()
      ensures nextPort == LOW && nextServerId == 1 && instances == []
    {
      nextPort, nextServerId, instances := LOW, 1, [];
    }

    /** Terminates whenever some port is usable, after a bounded number of probes, with the first
        usable port from the counter on, or else, after wrapping, with the first usable port at all. */
    method AllocHostPort(free: nat -> bool) returns (port: nat, ghost probes: nat)
      requires exists p: nat :: Usable(instances, free, p)
      modifies this`nextPort
      ensures Usable(instances, free, port) && nextPort == port + 1
      ensures forall d :: d in instances ==>
        && port !in d.nodePorts && port !in d.rpcPorts
        && port !in d.proxyPorts && port !in d.accessPorts && port !in d.olderPorts
      ensures FirstFrom(instances, free, old(nextPort), port)
        || (NoneIn(instances, free, old(nextPort), HIGH) && FirstFrom(instances, free, LOW, port))
      ensures probes <= 1 + (HIGH - LOW) + Above(old(nextPort))
    {
      var taken := DeclaredPorts(instances);
      ghost var start, wrapped := nextPort, false;
      probes := 0;
      while true
        invariant !wrapped ==>
          nextPort >= start && probes == nextPort - start && (nextPort == start || nextPort <= HIGH)
        invariant !wrapped ==> NoneIn(instances, free, start, nextPort)
        invariant wrapped ==> LOW <= nextPort <= HIGH && probes <= 1 + (nextPort - LOW) + Above(start)
        invariant wrapped ==> NoneIn(instances, free, start, HIGH) && NoneIn(instances, free, LOW, nextPort)
        decreases !wrapped, HIGH - nextPort
      {
        var p := nextPort;
        nextPort := nextPort + 1;
        probes := probes + 1;
        if p >= HIGH {
          nextPort := LOW;
          wrapped := true;
          continue;
        }
        if p < LOW {
          continue;
        }
        if p in taken {
          continue;
        }
        if free(p) {
          return p, probes;
        }
      }
    }

    /** The allocations of one creation, whose ports are not declared yet: they are pairwise distinct
        exactly if there are enough usable ports, even across a wrap. */
    method AllocHostPorts(free: nat -> bool, n: nat) returns (ports: seq<nat>)
      requires exists p: nat :: Usable(instances, free, p)
      modifies this`nextPort
      ensures |ports| == n && forall i :: 0 <= i < n ==> Usable(instances, free, ports[i])
      ensures AllDiffer(ports) <==> n <= |UsablePorts(instances, free)|
    {
      ports := [];
      ghost var usable := UsablePorts(instances, free);
      ghost var some: nat :| Usable(instances, free, some);
      ghost var start, wrapped := nextPort, false;
      while |ports| < n
        invariant |ports| <= n && forall i :: 0 <= i < |ports| ==> Usable(instances, free, ports[i])
        invariant |ports| <= |usable| ==> AllDiffer(ports)
        invariant !wrapped ==> nextPort >= start
        invariant |ports| <= |usable| && wrapped ==> nextPort <= start
        invariant |ports| <= |usable| ==>
          forall p: nat :: p in ports <==> p in usable && Behind(start, nextPort, wrapped, p)
      {
        ghost var before := nextPort;
        assert Usable(instances, free, some);
        if |ports| < |usable| {
          ghost var left := SomeLeft(ports, usable);
          assert Usable(instances, free, left);
        }
        var port, _ := AllocHostPort(free);
        if port < before {
          wrapped := true;
        }
        assert |ports| < |usable| ==> port in usable && port !in ports;
        ports := ports + [port];
      }
      if AllDiffer(ports) {
        DistinctFit(ports, usable);
      }
    }

    /** A new record with master and slaves, in one shard or many: the proxies, one to four, draw their
        ports first, then the access layer, then the nodes. */
    method CreateRecord(free: nat -> bool, asked: nat, nodes: nat, serverIds: seq<nat>) returns (d: Declaration)
      requires exists p: nat :: Usable(instances, free, p)
      modifies this`nextPort, this`instances
      ensures instances == old(instances) + [d]
      ensures |d.proxyPorts| == 2 * ProxyCount(asked) && |d.accessPorts| == 1 && |d.nodePorts| == nodes
      ensures d.rpcPorts == Zeros(nodes) && d.olderPorts == d.proxyPorts[..2] && d.serverIds == serverIds
      ensures forall at: Place :: at.Within(d) ==> at.Rpc? || Usable(old(instances), free, PortAt(d, at))
      ensures Fresh(old(instances), d)
        <==> 2 * ProxyCount(asked) + 1 + nodes <= |UsablePorts(old(instances), free)|
    {
      hide Fresh, Usable, AllDiffer;
      var proxies := ProxyCount(asked);
      var ports := AllocHostPorts(free, 2 * proxies + 1 + nodes);
      var access := 2 * proxies;
      d := Declaration(
        ports[access + 1..], Zeros(nodes), ports[..access], [ports[access]], ports[..2], serverIds);
      assert d.olderPorts == d.proxyPorts[..2];
      FreshPairRecord(instances, free, d, ports, access);
      instances := instances + [d];
    }

    /** A new xenon record. The ports for the proxies and the access layer of the other kinds are drawn
        first and dropped; then every member draws two, and proxies and access layer follow if there
        are any. */
    method CreateXenonRecord(free: nat -> bool, dropped: nat, nodes: nat, proxies: nat, serverIds: seq<nat>)
      returns (d: Declaration)
      requires exists p: nat :: Usable(instances, free, p)
      modifies this`nextPort, this`instances
      ensures instances == old(instances) + [d]
      ensures |d.nodePorts| == |d.rpcPorts| == nodes && |d.proxyPorts| == 2 * proxies && |d.accessPorts| == 1
      ensures d.olderPorts == (if proxies > 0 then d.proxyPorts[..2] else [0, 0]) && d.serverIds == serverIds
      ensures forall at: Place :: at.Within(d) ==>
        (at.Access? && proxies == 0) || Usable(old(instances), free, PortAt(d, at))
      ensures proxies == 0 ==> d.accessPorts == [0]
      ensures Fresh(old(instances), d)
        <==> 2 * nodes + (if proxies > 0 then 2 * proxies + 1 else 0) <= |UsablePorts(old(instances), free)|
    {
      hide Fresh, Usable, AllDiffer;
      ghost var some: nat :| Usable(instances, free, some);
      var _ := AllocHostPorts(free, 2 * dropped + 1);
      assert Usable(instances, free, some);
      var ports := AllocHostPorts(free, 2 * nodes + if proxies > 0 then 2 * proxies + 1 else 0);
      var access := 2 * nodes + 2 * proxies;
      d := Declaration(
        EveryOther(ports, 0, nodes), EveryOther(ports, 1, nodes), ports[2 * nodes..access],
        [if proxies > 0 then ports[access] else 0],
        if proxies > 0 then ports[2 * nodes..2 * nodes + 2] else [0, 0], serverIds);
      assert proxies > 0 ==> d.olderPorts == d.proxyPorts[..2];
      FreshXenonRecord(instances, free, d, ports, nodes, 2 * proxies);
      instances := instances + [d];
    }

    /** Loads the persisted instances; the counters continue above everything they declare. */
    method LoadPersisted(records: seq<Declaration>)
      modifies this
      ensures instances == records
      ensures nextPort > LOW && forall p: nat :: Declared(records, p) ==> p < nextPort
      ensures forall d :: d in records ==>
        && Below(d.nodePorts, nextPort) && Below(d.rpcPorts, nextPort)
        && Below(d.proxyPorts, nextPort) && Below(d.accessPorts, nextPort) && Below(d.olderPorts, nextPort)
      ensures nextPort > LOW + 1 ==> Declared(records, nextPort - 1)
      ensures nextServerId > 1 && forall d, s :: d in records && s in d.serverIds ==> s < nextServerId
      ensures nextServerId > 2 ==> exists d :: d in records && nextServerId - 1 in d.serverIds
    {
      var maxPort, maxSid := LOW, 1;
      var i := 0;
      while i < |records|
        invariant 0 <= i <= |records|
        invariant maxPort >= LOW && forall k, p: nat :: 0 <= k < i && Declares(records[k], p) ==> p <= maxPort
        invariant maxPort > LOW ==> exists k :: 0 <= k < i && Declares(records[k], maxPort)
        invariant maxSid >= 1 && forall k, s :: 0 <= k < i && s in records[k].serverIds ==> s <= maxSid
        invariant maxSid > 1 ==> exists k :: 0 <= k < i && maxSid in records[k].serverIds
      {
        var p := Max(PortsOf(records[i]), maxPort);
        var s := Max(records[i].serverIds, maxSid);
        PortsAreDeclared(records[i]);
        assert p > maxPort ==> Declares(records[i], p);
        maxPort, maxSid := p, s;
        i := i + 1;
      }
      forall d | d in records ensures forall p: nat :: Declares(d, p) ==> p <= maxPort {
        var k :| 0 <= k < |records| && records[k] == d;
        assert forall p: nat :: Declares(records[k], p) ==> p <= maxPort;
      }
      forall d | d in records
        ensures Below(d.nodePorts, maxPort + 1) && Below(d.rpcPorts, maxPort + 1)
        ensures Below(d.proxyPorts, maxPort + 1) && Below(d.accessPorts, maxPort + 1)
        ensures Below(d.olderPorts, maxPort + 1)
      {
        DeclaredBelow(d, maxPort);
      }
      instances := records;
      nextPort, nextServerId := maxPort + 1, maxSid + 1;
    }
  }

  lemma {:induction false} PortsAreDeclared(d: Declaration)
    ensures forall p :: p in PortsOf(d) <==> Declares(d, p)
  {
  }

  ghost predicate Below(ports: seq<nat>, top: nat) {
    forall k :: 0 <= k < |ports| ==> ports[k] < top
  }

  lemma {:induction false} DeclaredBelow(d: Declaration, top: nat)
    requires forall p: nat :: Declares(d, p) ==> p <= top
    ensures Below(d.nodePorts, top + 1) && Below(d.rpcPorts, top + 1) && Below(d.proxyPorts, top + 1)
    ensures Below(d.accessPorts, top + 1) && Below(d.olderPorts, top + 1)
  {
    forall ports, k | ports in {d.nodePorts, d.rpcPorts, d.proxyPorts, d.accessPorts, d.olderPorts} && 0 <= k < |ports|
      ensures ports[k] <= top
    {
      assert Declares(d, ports[k]);
    }
  }

  method Max(s: seq<nat>, low: nat) returns (m: nat)
    ensures m >= low && forall x :: x in s ==> x <= m
    ensures m == low || m in s
  {
    m := low;
    for i := 0 to |s|
      invariant m >= low && forall j :: 0 <= j < i ==> s[j] <= m
      invariant m == low || m in s
    {
      if s[i] > m {
        m := s[i];
      }
    }
  }

  ghost function UsablePorts(instances: seq<Declaration>, free: nat -> bool): (s: set<nat>)
    ensures forall p: nat :: p in s <==> Usable(instances, free, p)
  {
    set p: nat | LOW <= p < HIGH && Usable(instances, free, p)
  }

  /** `p` lies in the cyclic stretch that the counter has passed since `start`. */
  ghost predicate Behind(start: nat, next: nat, wrapped: bool, p: nat) {
    if wrapped then p >= start || p < next else start <= p < next
  }

  ghost predicate AllDiffer(ports: seq<nat>) {
    forall i, j :: 0 <= i < j < |ports| ==> ports[i] != ports[j]
  }

  lemma {:induction false} DistinctFit(ports: seq<nat>, usable: set<nat>)
    requires AllDiffer(ports) && forall p :: p in ports ==> p in usable
    ensures |ports| <= |usable|
    decreases |ports|
  {
    if ports != [] {
      var last := ports[|ports| - 1];
      var front := ports[..|ports| - 1];
      assert last in ports && forall p :: p in front ==> p in ports;
      DistinctFit(front, usable - {last});
    }
  }

  lemma {:induction false} SomeLeft(ports: seq<nat>, usable: set<nat>) returns (p: nat)
    requires |ports| < |usable|
    ensures p in usable && p !in ports
    decreases |ports|
  {
    if ports == [] {
      p :| p in usable;
    } else {
      var last := ports[|ports| - 1];
      var rest := usable - {last};
      assert |rest| >= |usable| - 1 by {
        if last in usable {
          assert usable == rest + {last};
        } else {
          assert usable == rest;
        }
      }
      p := SomeLeft(ports[..|ports| - 1], rest);
      assert ports == ports[..|ports| - 1] + [last];
    }
  }

  // ----- Where ports stand -----

  /** A place for a port in one record. */
  datatype Place = Node(k: nat) | Rpc(k: nat) | Proxy(k: nat) | Access(k: nat) {
    ghost predicate Within(d: Declaration) {
      k < |Field(d, this)|
    }
  }

  function Field(d: Declaration, at: Place): seq<nat> {
    match at
    case Node(_) => d.nodePorts
    case Rpc(_) => d.rpcPorts
    case Proxy(_) => d.proxyPorts
    case Access(_) => d.accessPorts
  }

  /** The port at a place, 0 where the record has none. */
  function PortAt(d: Declaration, at: Place): nat {
    if at.k < |Field(d, at)| then Field(d, at)[at.k] else 0
  }

  /** How many proxies an instance gets. */
  function ProxyCount(asked: nat): nat {
    if asked < 1 then 1 else if asked > 4 then 4 else asked
  }

  function Zeros(n: nat): seq<nat> {
    seq(n, _ => 0)
  }

  /** No two places of all records hold the same port. */
  ghost predicate Apart(instances: seq<Declaration>) {
    forall i, j, a: Place, b: Place ::
      0 <= i < |instances| && 0 <= j < |instances| && PortAt(instances[i], a) == PortAt(instances[j], b) > 0 ==>
        i == j && a == b
  }

  /** The ports of a new record are its own, and no two of its places share one. */
  ghost predicate Fresh(instances: seq<Declaration>, d: Declaration) {
    && (forall i, a: Place, b: Place ::
          0 <= i < |instances| && PortAt(d, b) > 0 ==> PortAt(instances[i], a) != PortAt(d, b))
    && (forall a: Place, b: Place :: PortAt(d, a) == PortAt(d, b) > 0 ==> a == b)
  }

  lemma {:induction false} PlaceDeclares(d: Declaration, at: Place)
    requires PortAt(d, at) > 0
    ensures Declares(d, PortAt(d, at))
  {
  }

  /** `place` says where the allocations of a creation end up in its record, `index` is its inverse. */
  ghost predicate Laid(d: Declaration, ports: seq<nat>, place: nat -> Place, index: Place -> nat) {
    && (forall i: nat :: i < |ports| ==> PortAt(d, place(i)) == ports[i] && index(place(i)) == i)
    && (forall at: Place :: PortAt(d, at) > 0 ==> index(at) < |ports| && place(index(at)) == at)
  }

  lemma {:induction false} FreshRecord(
      instances: seq<Declaration>, free: nat -> bool, d: Declaration, ports: seq<nat>, place: nat -> Place,
      index: Place -> nat)
    requires forall i :: 0 <= i < |ports| ==> Usable(instances, free, ports[i])
    requires Laid(d, ports, place, index)
    ensures forall at: Place :: PortAt(d, at) > 0 ==> Usable(instances, free, PortAt(d, at))
    ensures Fresh(instances, d) <==> AllDiffer(ports)
  {
    forall i, a: Place, b: Place | 0 <= i < |instances| && PortAt(d, b) > 0
      ensures PortAt(instances[i], a) != PortAt(d, b)
    {
      assert Usable(instances, free, ports[index(b)]);
      if PortAt(instances[i], a) > 0 {
        PlaceDeclares(instances[i], a);
        assert instances[i] in instances;
      }
    }
    if AllDiffer(ports) {
      forall a: Place, b: Place | PortAt(d, a) == PortAt(d, b) > 0 ensures a == b {
        assert ports[index(a)] == ports[index(b)];
      }
    } else {
      var i, j :| 0 <= i < j < |ports| && ports[i] == ports[j];
      assert Usable(instances, free, ports[i]);
      assert index(place(i)) == i && index(place(j)) == j;
    }
  }

  /** With master and slaves: proxies, access layer, nodes. */
  function PlaceOf(i: nat, proxies: nat): Place {
    if i < proxies then Proxy(i) else if i == proxies then Access(0) else Node(i - proxies - 1)
  }

  function IndexOf(at: Place, proxies: nat): nat {
    match at
    case Proxy(k) => k
    case Access(k) => proxies + k
    case Node(k) => proxies + 1 + k
    case Rpc(_) => 0
  }

  ghost predicate Layout(d: Declaration, ports: seq<nat>, proxies: nat) {
    && proxies < |ports|
    && d.proxyPorts == ports[..proxies] && d.accessPorts == [ports[proxies]] && d.nodePorts == ports[proxies + 1..]
    && d.rpcPorts == Zeros(|d.rpcPorts|)
  }

  lemma {:induction false} FreshPairRecord(
      instances: seq<Declaration>, free: nat -> bool, d: Declaration, ports: seq<nat>, proxies: nat)
    requires forall i :: 0 <= i < |ports| ==> Usable(instances, free, ports[i])
    requires Layout(d, ports, proxies)
    ensures forall at: Place :: at.Within(d) ==> at.Rpc? || Usable(instances, free, PortAt(d, at))
    ensures Fresh(instances, d) <==> AllDiffer(ports)
  {
    hide Fresh, AllDiffer, Laid, Declared;
    LaidOut(d, ports, proxies);
    FreshRecord(
      instances, free, d, ports, (i: nat) => PlaceOf(i, proxies), (at: Place) => IndexOf(at, proxies));
    forall at: Place | at.Within(d) && !at.Rpc? ensures PortAt(d, at) > 0 {
      assert Usable(instances, free, ports[IndexOf(at, proxies)]);
    }
  }

  lemma {:induction false} LaidOut(d: Declaration, ports: seq<nat>, proxies: nat)
    requires Layout(d, ports, proxies)
    ensures Laid(d, ports, (i: nat) => PlaceOf(i, proxies), (at: Place) => IndexOf(at, proxies))
  {
    forall i: nat | i < |ports|
      ensures PortAt(d, PlaceOf(i, proxies)) == ports[i] && IndexOf(PlaceOf(i, proxies), proxies) == i
    {
    }
    forall at: Place | PortAt(d, at) > 0
      ensures IndexOf(at, proxies) < |ports| && PlaceOf(IndexOf(at, proxies), proxies) == at
    {
    }
  }

  /** Xenon: every member takes one port for MySQL and one for its own protocol. */
  function XenonPlace(i: nat, nodes: nat, proxies: nat): Place {
    if i < 2 * nodes then (if i % 2 == 0 then Node(i / 2) else Rpc(i / 2))
    else if i < 2 * nodes + proxies then Proxy(i - 2 * nodes)
    else Access(i - 2 * nodes - proxies)
  }

  function XenonIndex(at: Place, nodes: nat, proxies: nat): nat {
    match at
    case Node(k) => 2 * k
    case Rpc(k) => 2 * k + 1
    case Proxy(k) => 2 * nodes + k
    case Access(k) => 2 * nodes + proxies + k
  }

  /** The ports of `ports` from `first` on, every other one. */
  function EveryOther(ports: seq<nat>, first: nat, n: nat): seq<nat>
    requires n > 0 ==> first + 2 * (n - 1) < |ports|
  {
    seq(n, i requires 0 <= i < n => ports[first + 2 * i])
  }

  ghost predicate XenonLayout(d: Declaration, ports: seq<nat>, nodes: nat, proxies: nat) {
    && |ports| == 2 * nodes + proxies + (if proxies > 0 then 1 else 0)
    && d.nodePorts == EveryOther(ports, 0, nodes) && d.rpcPorts == EveryOther(ports, 1, nodes)
    && d.proxyPorts == ports[2 * nodes..2 * nodes + proxies]
    && d.accessPorts == if proxies > 0 then [ports[2 * nodes + proxies]] else [0]
  }

  lemma {:induction false} XenonPlaced(d: Declaration, ports: seq<nat>, nodes: nat, proxies: nat, i: nat)
    requires XenonLayout(d, ports, nodes, proxies) && i < |ports|
    ensures PortAt(d, XenonPlace(i, nodes, proxies)) == ports[i]
    ensures XenonIndex(XenonPlace(i, nodes, proxies), nodes, proxies) == i
  {
    if i < 2 * nodes {
      assert i / 2 < nodes;
      if i % 2 == 0 {
        assert d.nodePorts[i / 2] == ports[0 + 2 * (i / 2)];
      } else {
        assert d.rpcPorts[i / 2] == ports[1 + 2 * (i / 2)];
      }
    }
  }

  lemma {:induction false} XenonIndexed(d: Declaration, ports: seq<nat>, nodes: nat, proxies: nat, at: Place)
    requires XenonLayout(d, ports, nodes, proxies) && PortAt(d, at) > 0
    ensures XenonIndex(at, nodes, proxies) < |ports|
    ensures XenonPlace(XenonIndex(at, nodes, proxies), nodes, proxies) == at
  {
  }

  lemma {:induction false} XenonLaidOut(d: Declaration, ports: seq<nat>, nodes: nat, proxies: nat)
    requires XenonLayout(d, ports, nodes, proxies)
    ensures Laid(d, ports, (i: nat) => XenonPlace(i, nodes, proxies), (at: Place) => XenonIndex(at, nodes, proxies))
  {
    hide XenonLayout, PortAt, XenonPlace, XenonIndex;
    forall i: nat | i < |ports|
      ensures PortAt(d, XenonPlace(i, nodes, proxies)) == ports[i]
      ensures XenonIndex(XenonPlace(i, nodes, proxies), nodes, proxies) == i
    {
      XenonPlaced(d, ports, nodes, proxies, i);
    }
    forall at: Place | PortAt(d, at) > 0
      ensures XenonIndex(at, nodes, proxies) < |ports|
      ensures XenonPlace(XenonIndex(at, nodes, proxies), nodes, proxies) == at
    {
      XenonIndexed(d, ports, nodes, proxies, at);
    }
  }

  /** The draws of a xenon record all stand in it, and decide whether it is fresh. */
  lemma {:induction false} FreshXenonRecord(
      instances: seq<Declaration>, free: nat -> bool, d: Declaration, ports: seq<nat>, nodes: nat, proxies: nat)
    requires forall i :: 0 <= i < |ports| ==> Usable(instances, free, ports[i])
    requires XenonLayout(d, ports, nodes, proxies)
    ensures forall at: Place :: at.Within(d) ==>
      (at.Access? && proxies == 0) || Usable(instances, free, PortAt(d, at))
    ensures Fresh(instances, d) <==> AllDiffer(ports)
  {
    hide XenonLayout, PortAt, XenonPlace, XenonIndex, Fresh, Usable, AllDiffer, Laid;
    XenonLaidOut(d, ports, nodes, proxies);
    FreshRecord(
      instances, free, d, ports,
      (i: nat) => XenonPlace(i, nodes, proxies), (at: Place) => XenonIndex(at, nodes, proxies));
    forall at: Place | at.Within(d) && (at.Access? ==> proxies > 0) ensures PortAt(d, at) > 0 {
      XenonPositive(instances, free, d, ports, nodes, proxies, at);
    }
  }

  lemma {:induction false} XenonPositive(
      instances: seq<Declaration>, free: nat -> bool, d: Declaration, ports: seq<nat>, nodes: nat, proxies: nat,
      at: Place)
    requires forall i :: 0 <= i < |ports| ==> Usable(instances, free, ports[i])
    requires XenonLayout(d, ports, nodes, proxies) && at.Within(d) && (at.Access? ==> proxies > 0)
    ensures PortAt(d, at) > 0
  {
    assert XenonIndex(at, nodes, proxies) < |ports|;
    assert Usable(instances, free, ports[XenonIndex(at, nodes, proxies)]);
  }

  // ----- Runs -----

  /** What happens to the records: an instance is created or destroyed, the process restarts, a node
      is added with the port `p` that was drawn when the scale-out was submitted, or a node gets the
      port `p` drawn for its replacement. */
  datatype Event = Created(d: Declaration) | Destroyed(i: nat) | Restarted | Added(i: nat, p: nat)
    | Replaced(i: nat, k: nat, p: nat)

  ghost predicate Step(a: seq<Declaration>, e: Event, b: seq<Declaration>) {
    match e
    case Created(d) => Fresh(a, d) && b == a + [d]
    case Destroyed(i) => i < |a| && b == a[..i] + a[i + 1..]
    case Restarted => b == a
    case Added(i, p) => i < |a| && p > 0 && b == a[i := WithNode(a[i], p)]
    case Replaced(i, k, p) =>
      i < |a| && p > 0 && k < |a[i].nodePorts| && b == a[i := a[i].(nodePorts := a[i].nodePorts[k := p])]
  }

  function WithNode(d: Declaration, p: nat): Declaration {
    d.(nodePorts := d.nodePorts + [p], rpcPorts := d.rpcPorts + [0])
  }

  /** Some place other than `at` of record `i` holds `p`. */
  ghost predicate HeldElsewhere(instances: seq<Declaration>, p: nat, i: nat, at: Place) {
    exists j, b: Place :: 0 <= j < |instances| && PortAt(instances[j], b) == p && (j != i || b != at)
  }

  /** The drawn port of a scale-out or a replacement is still nobody else's when it is recorded. */
  ghost predicate StillOwn(a: seq<Declaration>, e: Event) {
    match e
    case Added(i, p) => i < |a| && !HeldElsewhere(a, p, i, Node(|a[i].nodePorts|))
    case Replaced(i, k, p) => !HeldElsewhere(a, p, i, Node(k))
    case _ => true
  }

  /** The records stay apart exactly if the port that is recorded late is still free then. */
  lemma {:induction false} StepKeepsApartIff(a: seq<Declaration>, e: Event, b: seq<Declaration>)
    requires Apart(a) && Step(a, e, b)
    ensures Apart(b) <==> StillOwn(a, e)
  {
    match e
    case Created(d) => CreatedApart(a, d);
    case Destroyed(i) => DestroyedApart(a, i);
    case Restarted =>
    case Added(i, p) => SetApart(a, b, i, Node(|a[i].nodePorts|), p);
    case Replaced(i, k, p) => SetApart(a, b, i, Node(k), p);
  }

  lemma {:induction false} CreatedApart(a: seq<Declaration>, d: Declaration)
    requires Apart(a) && Fresh(a, d)
    ensures Apart(a + [d])
  {
    hide PortAt;
  }

  lemma {:induction false} DestroyedApart(a: seq<Declaration>, i: nat)
    requires Apart(a) && i < |a|
    ensures Apart(a[..i] + a[i + 1..])
  {
    hide PortAt, Apart;
    var b := a[..i] + a[i + 1..];
    forall j, k, x: Place, y: Place |
      0 <= j < |b| && 0 <= k < |b| && PortAt(b[j], x) == PortAt(b[k], y) > 0
      ensures j == k && x == y
    {
      var j', k' := if j < i then j else j + 1, if k < i then k else k + 1;
      assert b[j] == a[j'] && b[k] == a[k'];
      ApartAt(a, j', k', x, y);
    }
    ApartIf(b);
  }

  lemma {:induction false} ApartAt(a: seq<Declaration>, j: nat, k: nat, x: Place, y: Place)
    requires Apart(a) && j < |a| && k < |a| && PortAt(a[j], x) == PortAt(a[k], y) > 0
    ensures j == k && x == y
  {
  }

  lemma {:induction false} ApartIf(b: seq<Declaration>)
    requires forall j, k, x: Place, y: Place ::
      0 <= j < |b| && 0 <= k < |b| && PortAt(b[j], x) == PortAt(b[k], y) > 0 ==> j == k && x == y
    ensures Apart(b)
  {
  }

  /** One place of one record gets `p`. */
  lemma {:induction false} SetApart(a: seq<Declaration>, b: seq<Declaration>, i: nat, at: Place, p: nat)
    requires Apart(a) && |a| == |b| && i < |a| && p > 0 && PortAt(b[i], at) == p
    requires forall j, x: Place :: 0 <= j < |a| && (j != i || x != at) ==> PortAt(b[j], x) == PortAt(a[j], x)
    ensures Apart(b) <==> !HeldElsewhere(a, p, i, at)
  {
    hide PortAt, Apart;
    if HeldElsewhere(a, p, i, at) {
      var j, x: Place :| 0 <= j < |a| && PortAt(a[j], x) == p && (j != i || x != at);
      if Apart(b) {
        ApartAt(b, j, i, x, at);
      }
    } else {
      forall j, k, x: Place, y: Place |
        0 <= j < |b| && 0 <= k < |b| && PortAt(b[j], x) == PortAt(b[k], y) > 0
        ensures j == k && x == y
      {
        if (j != i || x != at) && (k != i || y != at) {
          ApartAt(a, j, k, x, y);
        }
      }
      ApartIf(b);
    }
  }

  ghost predicate Run(states: seq<seq<Declaration>>, events: seq<Event>) {
    && |states| == |events| + 1 && states[0] == []
    && forall k :: 0 <= k < |events| ==> Step(states[k], events[k], states[k + 1])
  }

  /** Over any run of creations, destructions, restarts, scale-outs and replacements, no port is ever
      declared twice exactly if every port recorded late was still nobody else's. */
  lemma {:induction false} RunStaysApartIff(states: seq<seq<Declaration>>, events: seq<Event>)
    requires Run(states, events)
    ensures (forall k :: 0 <= k < |states| ==> Apart(states[k]))
      <==> (forall k :: 0 <= k < |events| ==> StillOwn(states[k], events[k]))
    decreases |events|
  {
    hide Apart, Step, StillOwn;
    if events == [] {
      ApartIf([]);
    } else {
      var n := |events| - 1;
      RunStaysApartIff(states[..n + 1], events[..n]);
      assert forall k :: 0 <= k <= n ==> states[..n + 1][k] == states[k];
      assert forall k :: 0 <= k < n ==> events[..n][k] == events[k];
      if Apart(states[n]) {
        StepKeepsApartIff(states[n], events[n], states[n + 1]);
      }
    }
  }

  /** Creations, destructions and restarts alone never declare a port twice. */
  lemma {:induction false} CreationsStayApart(states: seq<seq<Declaration>>, events: seq<Event>)
    requires Run(states, events)
    requires forall k :: 0 <= k < |events| ==> !events[k].Added? && !events[k].Replaced?
    ensures forall k :: 0 <= k < |states| ==> Apart(states[k])
  {
    RunStaysApartIff(states, events);
  }

  function OneNode(port: nat, serverId: nat): Declaration {
    Declaration([port], [0], [], [], [], [serverId])
  }

  /** A scale-out draws 35001 beside an instance that holds 35000. The process restarts before the
      node is recorded, the next creation draws 35001 again, and the resumed scale-out records it too. */
  lemma {:induction false} LateRecordCollides()
    ensures
      var one, two := OneNode(35_000, 1), OneNode(35_001, 11);
      && Run([[], [one], [one], [one, two], [WithNode(one, 35_001), two]],
             [Created(one), Restarted, Created(two), Added(0, 35_001)])
      && !Apart([WithNode(one, 35_001), two])
  {
    hide WithNode, Fresh, Apart;
    OneIsFresh([], 35_000, 1);
    OneIsFresh([OneNode(35_000, 1)], 35_001, 11);
    LateRecord(OneNode(35_000, 1), OneNode(35_001, 11), 35_001);
    GrownCollides(35_000, 1, 35_001, 11);
  }

  lemma {:induction false} LateRecord(one: Declaration, two: Declaration, p: nat)
    requires Fresh([], one) && Fresh([one], two) && p > 0
    ensures Run([[], [one], [one], [one, two], [WithNode(one, p), two]],
                [Created(one), Restarted, Created(two), Added(0, p)])
  {
    hide WithNode, Fresh;
    assert [] + [one] == [one] && [one] + [two] == [one, two];
    assert [one, two][0 := WithNode(one, p)] == [WithNode(one, p), two];
  }

  lemma {:induction false} OneIsFresh(a: seq<Declaration>, port: nat, serverId: nat)
    requires forall i, at: Place :: 0 <= i < |a| && PortAt(a[i], at) > 0 ==> PortAt(a[i], at) < port
    ensures Fresh(a, OneNode(port, serverId))
  {
  }

  lemma {:induction false} GrownCollides(p: nat, s: nat, q: nat, t: nat)
    requires q > 0
    ensures !Apart([WithNode(OneNode(p, s), q), OneNode(q, t)])
  {
    var a := [WithNode(OneNode(p, s), q), OneNode(q, t)];
    assert PortAt(a[0], Node(1)) == PortAt(a[1], Node(0)) == q;
  }
}
