/** Registrations, deletions, collections, failed saves and restarts over one store and one address pool. */
module Coordinator {
  import opened Words
  import opened StoreState
  import opened IPPool

  /** inflight: registrations that hold an address and have not yet added their node. issued: every id ever
      generated; generateID returns fresh ones. disk: the nodes of the last successful save. */
  datatype Sys = Sys(
    nodes: seq<Node>,
    disk: seq<Node>,
    pool: Pool,
    inflight: map<NodeID, u32>,
    issued: set<NodeID>)

  datatype Event =
    | Allocate(id: NodeID, ip: u32)
    | AddNode(n: Node, writeOk: bool)
    | UpdateNode(n: Node, writeOk: bool)
    | DeleteNode(id: string, writeOk: bool)
    | Collect(now: int, writeOk: bool)
    | Save(writeOk: bool)
    | Restart(base: u32, size: u32)

  function Start(base: u32, size: u32): Sys {
    Sys([], [], Pool(base, size, map[], map[]), map[], {})
  }

  predicate Enabled(s: Sys, e: Event) {
    match e
    case Allocate(id, ip) => id !in s.issued && ip !in s.pool.used
    case AddNode(n, _) => n.id in s.inflight && s.inflight[n.id] == n.virtualIP
    case UpdateNode(n, _) =>
      var i := IndexOf(s.nodes, n.id);
      i < |s.nodes| && n.virtualIP == s.nodes[i].virtualIP && n.publicKey == s.nodes[i].publicKey
    case _ => true
  }

  /** A failed save leaves the change in memory and the file as it was; a restart keeps only the file, drops the
      registrations in flight and reserves the addresses of the loaded nodes in a new, possibly different, subnet. */
  function Next(s: Sys, e: Event): Sys
    requires Enabled(s, e)
  {
    match e
    case Allocate(id, ip) =>
      s.(pool := Bound(s.pool, id, ip), inflight := s.inflight[id := ip], issued := s.issued + {id})
    case AddNode(n, ok) => Stored(s, WithNode(s.nodes, n), ok).(inflight := s.inflight - {n.id})
    case UpdateNode(n, ok) => Stored(s, s.nodes[IndexOf(s.nodes, n.id) := n], ok)
    case DeleteNode(id, ok) => Stored(s, WithoutNode(s.nodes, id), ok)
    case Collect(now, ok) => Stored(s, GcNodes(s.nodes, now), ok)
    case Save(ok) => Stored(s, s.nodes, ok)
    case Restart(base, size) =>
      s.(nodes := s.disk, pool := ReservedAll(Pool(base, size, map[], map[]), s.disk), inflight := map[])
  }

  function Stored(s: Sys, nodes: seq<Node>, ok: bool): Sys {
    s.(nodes := nodes, disk := if ok then nodes else s.disk)
  }

  function ReservedAll(p: Pool, ns: seq<Node>): Pool {
    if ns == [] then p
    else Reserved(ReservedAll(p, ns[..|ns| - 1]), ns[|ns| - 1].id, ns[|ns| - 1].virtualIP).0
  }

  // ---------------------------------------------------------------- the invariant

  /** Each of these nodes has the pool's record of its address. */
  ghost predicate Held(ns: seq<Node>, p: Pool) {
    forall i | 0 <= i < |ns| :: ns[i].virtualIP in p.used && p.used[ns[i].virtualIP] == ns[i].id
  }

  ghost predicate Issued(ns: seq<Node>, issued: set<NodeID>) {
    forall i | 0 <= i < |ns| :: ns[i].id in issued
  }

  ghost predicate Inv(s: Sys) {
    && Consistent(s.pool)
    && Held(s.nodes, s.pool) && DistinctIds(s.nodes) && Issued(s.nodes, s.issued)
    && Held(s.disk, s.pool) && DistinctIds(s.disk) && Issued(s.disk, s.issued)
    && s.inflight.Keys <= s.issued && s.pool.byNode.Keys <= s.issued
    && (forall id | id in s.inflight :: s.inflight[id] in s.pool.used && s.pool.used[s.inflight[id]] == id)
  }

  lemma HeldMeansDistinctAddresses(ns: seq<Node>, p: Pool, i: nat, j: nat)
    requires Held(ns, p) && DistinctIds(ns) && i < j < |ns|
    ensures ns[i].virtualIP != ns[j].virtualIP
  {
  }

  lemma {:induction false} OnlyTheirAddressesAreReserved(p: Pool, ns: seq<Node>, ip: u32)
    requires ip !in p.used && forall i | 0 <= i < |ns| :: ns[i].virtualIP != ip
    ensures ip !in ReservedAll(p, ns).used
  {
    if ns != [] { OnlyTheirAddressesAreReserved(p, ns[..|ns| - 1], ip); }
  }

  /** Reserving distinct addresses for distinct nodes never fails, so every loaded node holds its address again. */
  lemma {:induction false} ReserveRestoresAll(base: u32, size: u32, ns: seq<Node>, issued: set<NodeID>)
    requires Issued(ns, issued)
    requires forall i, j | 0 <= i < j < |ns| :: ns[i].virtualIP != ns[j].virtualIP
    ensures var p := ReservedAll(Pool(base, size, map[], map[]), ns); Consistent(p) && Held(ns, p) && p.byNode.Keys <= issued
  {
    if ns != [] {
      var front, last := ns[..|ns| - 1], ns[|ns| - 1];
      ReserveRestoresAll(base, size, front, issued);
      OnlyTheirAddressesAreReserved(Pool(base, size, map[], map[]), front, last.virtualIP);
      OperationsStayConsistent(ReservedAll(Pool(base, size, map[], map[]), front), last.id, last.virtualIP);
    }
  }

  lemma AllocateKeepsInv(s: Sys, e: Event)
    requires Inv(s) && Enabled(s, e) && e.Allocate?
    ensures Inv(Next(s, e))
  {
    OperationsStayConsistent(s.pool, e.id, e.ip);
  }

  lemma WithNodeHeld(ns: seq<Node>, n: Node, p: Pool, issued: set<NodeID>)
    requires Held(ns, p) && Issued(ns, issued) && n.id in issued
    requires n.virtualIP in p.used && p.used[n.virtualIP] == n.id
    ensures Held(WithNode(ns, n), p) && Issued(WithNode(ns, n), issued)
  {
  }

  lemma AddKeepsInv(s: Sys, e: Event)
    requires Inv(s) && Enabled(s, e) && (e.AddNode? || e.DeleteNode? || e.UpdateNode? || e.Save?)
    ensures Inv(Next(s, e))
  {
    match e
    case AddNode(n, _) =>
      EditsKeepDistinctIds(s.nodes, n);
      WithNodeHeld(s.nodes, n, s.pool, s.issued);
    case DeleteNode(id, _) =>
      EditsKeepDistinctIds(s.nodes, NO_NODE.(id := id));
    case _ =>
  }

  lemma CollectKeepsInv(s: Sys, now: int, ok: bool)
    requires Inv(s)
    ensures Inv(Next(s, Collect(now, ok)))
  {
    var origin := GcKeepsIdentity(s.nodes, now);
    var ns := GcNodes(s.nodes, now);
    forall i | 0 <= i < |ns|
      ensures ns[i].id == s.nodes[origin[i]].id && ns[i].virtualIP == s.nodes[origin[i]].virtualIP
    {
    }
    forall i, j | 0 <= i < j < |ns| ensures ns[i].id != ns[j].id {
      assert origin[i] < origin[j];
    }
  }

  lemma RestartKeepsInv(s: Sys, base: u32, size: u32)
    requires Inv(s)
    ensures Inv(Next(s, Restart(base, size)))
  {
    forall i, j | 0 <= i < j < |s.disk| ensures s.disk[i].virtualIP != s.disk[j].virtualIP {
      HeldMeansDistinctAddresses(s.disk, s.pool, i, j);
    }
    ReserveRestoresAll(base, size, s.disk, s.issued);
  }

  lemma {:induction false} ReservedAllMeans(p: Pool, ns: seq<Node>, ip: u32)
    requires forall i, j | 0 <= i < j < |ns| :: ns[i].virtualIP != ns[j].virtualIP
    requires forall i | 0 <= i < |ns| :: ns[i].virtualIP !in p.used
    ensures ip in ReservedAll(p, ns).used <==> ip in p.used || exists i :: 0 <= i < |ns| && ns[i].virtualIP == ip
    ensures ReservedAll(p, ns).base == p.base && ReservedAll(p, ns).size == p.size
  {
    if ns != [] {
      var n := |ns| - 1;
      ReservedAllMeans(p, ns[..n], ip);
      ReservedAllMeans(p, ns[..n], ns[n].virtualIP);
      if i :| 0 <= i < n && ns[..n][i].virtualIP == ip { assert ns[i].virtualIP == ip; }
    }
  }

  /** A restart holds the addresses of the saved nodes and no other, whatever was held before. */
  lemma RestartHoldsTheSaved(s: Sys, base: u32, size: u32, ip: u32)
    requires Inv(s)
    ensures var s' := Next(s, Restart(base, size));
            s'.nodes == s.disk && s'.inflight == map[] && s'.pool.base == base && s'.pool.size == size &&
            (ip in s'.pool.used <==> exists i :: 0 <= i < |s.disk| && s.disk[i].virtualIP == ip)
  {
    forall i, j | 0 <= i < j < |s.disk| ensures s.disk[i].virtualIP != s.disk[j].virtualIP {
      HeldMeansDistinctAddresses(s.disk, s.pool, i, j);
    }
    ReservedAllMeans(Pool(base, size, map[], map[]), s.disk, ip);
  }

  ghost predicate Reaches(s: Sys, events: seq<Event>, s': Sys)
    decreases |events|
  {
    if events == [] then s == s' else Enabled(s, events[0]) && Reaches(Next(s, events[0]), events[1..], s')
  }

  lemma {:induction false} ReachesInv(s: Sys, events: seq<Event>, s': Sys)
    requires Inv(s) && Reaches(s, events, s')
    ensures Inv(s')
    decreases |events|
  {
    if events != [] {
      match events[0] {
        case Allocate(_, _) => AllocateKeepsInv(s, events[0]);
        case Collect(now, ok) => CollectKeepsInv(s, now, ok);
        case Restart(base, size) => RestartKeepsInv(s, base, size);
        case _ => AddKeepsInv(s, events[0]);
      }
      ReachesInv(Next(s, events[0]), events[1..], s');
    }
  }

  /** In every reachable state no two registered nodes share an address, nor does a stored node share one with a
      registration in flight; no two nodes of the saved file do either. */
  lemma NoTwoNodesShareAnAddress(base: u32, size: u32, events: seq<Event>, s: Sys, i: nat, j: nat)
    requires Reaches(Start(base, size), events, s)
    ensures i < j < |s.nodes| ==> s.nodes[i].virtualIP != s.nodes[j].virtualIP
    ensures i < j < |s.disk| ==> s.disk[i].virtualIP != s.disk[j].virtualIP
    ensures forall id | id in s.inflight && i < |s.nodes| && s.nodes[i].id != id :: s.inflight[id] != s.nodes[i].virtualIP
  {
    ReachesInv(Start(base, size), events, s);
    if i < j < |s.nodes| { HeldMeansDistinctAddresses(s.nodes, s.pool, i, j); }
    if i < j < |s.disk| { HeldMeansDistinctAddresses(s.disk, s.pool, i, j); }
  }
}
