/** Allocation of virtual addresses from an IPv4 subnet: two maps and 32-bit arithmetic. */
module IPPool {
  import opened Words

  type NodeID = string

  /** The subnet's first host address and how many hosts it has, and both maps. */
  datatype Pool = Pool(base: u32, size: u32, used: map<u32, NodeID>, byNode: map<NodeID, u32>)

  datatype Allocation = Address(ip: u32) | Exhausted

  /** NewIPPool on a parsed prefix: the network address has its host bits clear. */
  predicate IsSubnet(network: u32, ones: nat) {
    ones <= 32 && network % Pow2(32 - ones) == 0
  }

  /** uint32 subtraction and addition wrap; a shift by 32 gives zero. */
  function HostCount(ones: nat): u32
    requires ones <= 30
  {
    (Pow2(32 - ones) % TWO32 - 2) % TWO32
  }

  function FirstHost(network: u32): u32 {
    (network + 1) % TWO32
  }

  lemma {:induction false} Pow2Monotone(a: nat, b: nat)
    requires a <= b
    ensures Pow2(a) <= Pow2(b)
  {
    if a < b { Pow2Monotone(a, b - 1); }
  }

  /** For every prefix /0 to /30 the hosts base .. base+size-1 are exactly the addresses strictly between the
      network and the broadcast address, and none of the uint32 operations of the search wraps. */
  lemma HostsFillTheSubnet(network: u32, ones: nat, ip: int)
    requires IsSubnet(network, ones) && ones <= 30
    ensures var broadcast := network + Pow2(32 - ones) - 1;
            var base, size := FirstHost(network), HostCount(ones);
            broadcast < TWO32 && size == Pow2(32 - ones) - 2 && size >= 2 &&
            base + size - 1 < TWO32 &&
            (base <= ip < base + size <==> network < ip < broadcast)
  {
    TwoTo32();
    Pow2Monotone(32 - ones, 32);
    Pow2Monotone(2, 32 - ones);
    Pow2Add(32 - ones, ones);
    var block := Pow2(32 - ones);
    LastBlockFits(network, block, Pow2(ones));
  }

  lemma LastBlockFits(network: nat, block: nat, blocks: nat)
    requires block > 0 && network % block == 0 && network < block * blocks
    ensures network + block <= block * blocks
  {
    var q := network / block;
    assert network == block * q;
    if q >= blocks { Distribute(block, q, blocks); if q > blocks { MulAtLeast(block, q - blocks); } }
    Distribute(block, blocks, q);
    MulAtLeast(block, blocks - q);
  }

  // ---------------------------------------------------------------- operations on values

  /** Whether every host address below base + i is taken. */
  ghost predicate TakenBelow(p: Pool, i: nat) {
    forall ip: int | p.base <= ip < p.base + i :: ip in p.used
  }

  function Bound(p: Pool, n: NodeID, ip: u32): Pool {
    p.(used := p.used[ip := n], byNode := p.byNode[n := ip])
  }

  function Released(p: Pool, n: NodeID): Pool {
    if n in p.byNode then p.(used := p.used - {p.byNode[n]}, byNode := p.byNode - {n}) else p
  }

  function Reserved(p: Pool, n: NodeID, ip: u32): (Pool, bool) {
    if ip in p.used && p.used[ip] != n then (p, false) else (Bound(p, n, ip), true)
  }

  // ---------------------------------------------------------------- the relation between the maps

  /** Every node's address is recorded as its own; then no two nodes have the same address. */
  ghost predicate Consistent(p: Pool) {
    forall n | n in p.byNode :: p.byNode[n] in p.used && p.used[p.byNode[n]] == n
  }

  /** The two maps are inverse to each other. */
  ghost predicate Exact(p: Pool) {
    Consistent(p) && forall ip | ip in p.used :: p.used[ip] in p.byNode && p.byNode[p.used[ip]] == ip
  }

  lemma ConsistentIsInjective(p: Pool, m: NodeID, n: NodeID)
    requires Consistent(p) && m in p.byNode && n in p.byNode && p.byNode[m] == p.byNode[n]
    ensures m == n
  {
    assert p.used[p.byNode[m]] == m && p.used[p.byNode[n]] == n;
  }

  lemma OperationsStayConsistent(p: Pool, n: NodeID, ip: u32)
    requires Consistent(p)
    ensures ip !in p.used ==> Consistent(Bound(p, n, ip))
    ensures Consistent(Released(p, n))
    ensures Consistent(Reserved(p, n, ip).0)
  {
    if n in p.byNode {
      forall m | m in Released(p, n).byNode
        ensures p.byNode[m] in Released(p, n).used && Released(p, n).used[p.byNode[m]] == m
      {
        assert p.used[p.byNode[m]] == m;
      }
    }
  }

  lemma AllocationStaysExact(p: Pool, n: NodeID, ip: u32)
    requires Exact(p)
    ensures ip !in p.used && n !in p.byNode ==> Exact(Bound(p, n, ip))
    ensures Exact(Released(p, n))
  {
    var r := Released(p, n);
    forall a | a in r.used ensures r.used[a] in r.byNode && r.byNode[r.used[a]] == a {
      assert p.byNode[p.used[a]] == a;
    }
    forall m | m in r.byNode ensures r.byNode[m] in r.used && r.used[r.byNode[m]] == m {
      assert p.used[p.byNode[m]] == m;
    }
  }

  /** A reservation leaves the maps inverse exactly when it does not move a node that has another address. */
  lemma ReserveStaysExactIff(p: Pool, n: NodeID, ip: u32)
    requires Exact(p)
    ensures Exact(Reserved(p, n, ip).0) <==> (Reserved(p, n, ip).1 ==> n !in p.byNode || p.byNode[n] == ip)
  {
    var r := Reserved(p, n, ip).0;
    if Reserved(p, n, ip).1 && n in p.byNode && p.byNode[n] != ip {
      var stale := p.byNode[n];
      assert r.used[stale] == n && r.byNode[n] == ip;
      assert !Exact(r);
    } else {
      forall a | a in r.used ensures r.used[a] in r.byNode && r.byNode[r.used[a]] == a {
        if a != ip { assert p.byNode[p.used[a]] == a; }
      }
      forall m | m in r.byNode ensures r.byNode[m] in r.used && r.used[r.byNode[m]] == m {
        if m != n { assert p.used[p.byNode[m]] == m; }
      }
    }
  }

  // ---------------------------------------------------------------- completeness

  lemma {:induction false} TakenHostsAreMany(p: Pool, n: nat)
    requires TakenBelow(p, n)
    ensures |set ip | ip in p.used && p.base <= ip < p.base + n| == n
  {
    var hosts := set ip | ip in p.used && p.base <= ip < p.base + n;
    if n == 0 {
      assert hosts == {};
    } else {
      TakenHostsAreMany(p, n - 1);
      var fewer := set ip | ip in p.used && p.base <= ip < p.base + (n - 1);
      assert p.base + (n - 1) in p.used;
      assert hosts == fewer + {p.base + (n - 1)};
    }
  }

  /** While fewer than size addresses are in use, some host address is free. */
  lemma FewUsedMeansFreeHost(p: Pool)
    requires |p.used| < p.size
    ensures !TakenBelow(p, p.size)
  {
    if TakenBelow(p, p.size) {
      TakenHostsAreMany(p, p.size);
      var hosts := set ip | ip in p.used && p.base <= ip < p.base + p.size;
      SubsetIsSmaller(hosts, p.used.Keys);
    }
  }

  lemma {:induction false} SubsetIsSmaller<T>(a: set<T>, b: set<T>)
    requires a <= b
    ensures |a| <= |b|
  {
    if a != {} {
      var x :| x in a;
      SubsetIsSmaller(a - {x}, b - {x});
    }
  }

  // ---------------------------------------------------------------- the object

  class AddressPool {
    const base: u32
    const size: u32
    var used: map<u32, NodeID>
    var byNode: map<NodeID, u32>

    ghost function View(): Pool
      reads this
    {
      Pool(base, size, used, byNode)
    }

    ghost predicate Valid()
      reads this
    {
      base + size <= TWO32 && Consistent(View())
    }

    constructor (network: u32, ones: nat)
      requires IsSubnet(network, ones) && ones <= 30
      ensures Valid() && View() == Pool(FirstHost(network), HostCount(ones), map[], map[])
    {
      HostsFillTheSubnet(network, ones, network);
      base := (network + 1) % TWO32;
      size := (Pow2(32 - ones) % TWO32 - 2) % TWO32;
      used, byNode := map[], map[];
    }

    /** A node keeps its address; a new node gets the lowest free host address, and is refused only when
        every host address is taken. */
    method Allocate(nodeID: NodeID) returns (r: Allocation)
      requires Valid()
      modifies this
      ensures Valid()
      ensures nodeID in old(byNode) ==> r == Address(old(byNode)[nodeID]) && View() == old(View())
      ensures nodeID !in old(byNode) && r.Address? ==>
        base <= r.ip < base + size && r.ip !in old(used) && old(TakenBelow(View(), r.ip - base)) &&
        View() == Bound(old(View()), nodeID, r.ip)
      ensures r.Exhausted? <==> nodeID !in old(byNode) && old(TakenBelow(View(), size))
      ensures r.Exhausted? ==> View() == old(View())
      ensures old(|used|) < size ==> r.Address?
    {
      if nodeID in byNode { return Address(byNode[nodeID]); }
      if |used| < size { FewUsedMeansFreeHost(View()); }
      var i := 0;
      while i < size
        invariant 0 <= i <= size && TakenBelow(View(), i)
      {
        var addr := (base + i) % TWO32;
        if addr !in used {
          OperationsStayConsistent(View(), nodeID, addr);
          used := used[addr := nodeID];
          byNode := byNode[nodeID := addr];
          return Address(addr);
        }
        i := i + 1;
      }
      return Exhausted;
    }

    method Release(nodeID: NodeID)
      requires Valid()
      modifies this
      ensures Valid() && View() == Released(old(View()), nodeID)
      ensures byNode == old(byNode) - {nodeID}
      ensures used == if nodeID in old(byNode) then old(used) - {old(byNode)[nodeID]} else old(used)
    {
      OperationsStayConsistent(View(), nodeID, 0);
      if nodeID in byNode {
        used := used - {byNode[nodeID]};
        byNode := byNode - {nodeID};
      }
    }

    /** An address that is not IPv4 converts to 0. */
    method Reserve(nodeID: NodeID, ip4: u32) returns (ok: bool)
      requires Valid()
      modifies this
      ensures Valid() && (View(), ok) == Reserved(old(View()), nodeID, ip4)
      ensures ok <==> (ip4 in old(used) ==> old(used)[ip4] == nodeID)
      ensures used == (if ok then old(used)[ip4 := nodeID] else old(used))
      ensures byNode == if ok then old(byNode)[nodeID := ip4] else old(byNode)
    {
      OperationsStayConsistent(View(), nodeID, ip4);
      if ip4 in used && used[ip4] != nodeID { return false; }
      used := used[ip4 := nodeID];
      byNode := byNode[nodeID := ip4];
      return true;
    }
  }
}
