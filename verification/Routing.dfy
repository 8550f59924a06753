/** Which peer gets a packet: the owner of the address, else the longest matching prefix, else the exit node. */
module Routing {
  import opened Words
  import opened Peers
  import opened Mesh
  import Managers

  function Network(base: u32, bits: PrefixLength): int {
    base / Pow2(32 - bits)
  }

  predicate Contains(route: Prefix, dst: Address) {
    Network(dst, route.bits) == Network(route.base, route.bits)
  }

  lemma SameQuotient(x: nat, base: nat, block: nat)
    requires block > 0
    ensures base - base % block <= x < base - base % block + block <==> x / block == base / block
  {
    var q := base / block;
    assert base - base % block == block * q && x == block * (x / block) + x % block;
    if base - base % block <= x < base - base % block + block { EuclideanUnique(x, block, q, x - block * q); }
  }

  /** A prefix holds the 2^(32 - bits) addresses from its base on; bits of the base beyond the prefix are masked off. */
  lemma ContainsIff(base: u32, bits: PrefixLength, x: Address)
    ensures var block, host := Pow2(32 - bits), base % Pow2(32 - bits);
            Contains(Prefix(base, bits), x) <==> base - host <= x < base - host + block
  {
    SameQuotient(x, base, Pow2(32 - bits));
  }

  /** One address at length 32, every address at length 0. */
  lemma ContainsAtTheEnds(base: u32, x: Address)
    ensures Contains(Prefix(base, 32), x) <==> x == base
    ensures Contains(Prefix(base, 0), x)
  {
    ContainsIff(base, 32, x);
    ContainsIff(base, 0, x);
    TwoTo32();
  }

  lemma DivDiv(x: nat, a: nat, b: nat)
    requires a > 0 && b > 0
    ensures x / (a * b) == x / a / b
  {
    var q, r := x / a / b, x / a % b;
    assert x / a == q * b + r;
    assert x == (q * b + r) * a + x % a;
    Regroup(q, a, b, r);
    Below(r, b, x % a, a);
    EuclideanUnique(x, a * b, q, r * a + x % a);
  }

  lemma Regroup(q: nat, a: nat, b: nat, r: nat)
    ensures (q * b + r) * a == q * (a * b) + r * a
  {
  }

  lemma Below(r: nat, b: nat, s: nat, a: nat)
    requires r < b && s < a
    ensures 0 <= r * a + s < a * b
  {
    assert (r + 1) * a <= b * a;
  }

  /** A longer prefix with the same network has the same network at every shorter length. */
  lemma ShorterAgrees(x: u32, y: u32, long: PrefixLength, short: PrefixLength)
    requires short <= long && Network(x, long) == Network(y, long)
    ensures Network(x, short) == Network(y, short)
  {
    var a, b := 32 - long, long - short;
    Pow2Add(a, b);
    DivDiv(x, Pow2(a), Pow2(b));
    DivDiv(y, Pow2(a), Pow2(b));
  }

  /** Any two prefixes containing one destination are nested, the longer inside the shorter. */
  lemma MatchingPrefixesNest(long: Prefix, short: Prefix, dst: Address)
    requires Contains(long, dst) && Contains(short, dst) && short.bits <= long.bits
    ensures forall x: Address | Contains(long, x) :: Contains(short, x)
  {
    forall x: Address | Contains(long, x) ensures Contains(short, x) {
      ShorterAgrees(x, dst, long.bits, short.bits);
    }
  }

  predicate Live(p: Peer) { p.state != Expired }

  predicate OwnerIsLive(t: Table, dst: Address) {
    dst in t.byVIP && t.byVIP[dst] in t.peers && Live(t.peers[t.byVIP[dst]])
  }

  /** Live peer k advertises the route and the route contains dst. */
  predicate Matches(t: Table, k: Key, route: Prefix, dst: Address) {
    k in t.peers && Live(t.peers[k]) && route in t.peers[k].routes && Contains(route, dst)
  }

  ghost predicate HasMatch(t: Table, dst: Address) {
    exists k, route :: Matches(t, k, route, dst)
  }

  /** Peer k has a matching route of maximal prefix length over all live peers. */
  ghost predicate LongestMatch(t: Table, k: Key, dst: Address) {
    exists route :: Matches(t, k, route, dst) && Longest(t, route, dst)
  }

  ghost predicate Longest(t: Table, route: Prefix, dst: Address) {
    forall l, other | Matches(t, l, other, dst) :: other.bits <= route.bits
  }

  /** The longest match is the most specific: its route lies inside every other matching route. */
  lemma LongestIsMostSpecific(t: Table, k: Key, dst: Address)
    requires LongestMatch(t, k, dst)
    ensures exists route :: Matches(t, k, route, dst) &&
              forall l, other | Matches(t, l, other, dst) :: forall x: Address | Contains(route, x) :: Contains(other, x)
  {
    var route :| Matches(t, k, route, dst) && Longest(t, route, dst);
    forall l, other | Matches(t, l, other, dst) ensures forall x: Address | Contains(route, x) :: Contains(other, x) {
      MatchingPrefixesNest(route, other, dst);
    }
  }

  datatype Candidate = Candidate(peer: PeerRecord, prefix: nat)

  ghost predicate Descending(cs: seq<Candidate>) {
    forall i, j | 0 <= i < j < |cs| :: cs[i].prefix >= cs[j].prefix
  }

  /** The library's sort; which of two equal prefixes comes first is left open there. */
  method SortDescending(cs: seq<Candidate>) returns (sorted: seq<Candidate>)
    ensures Descending(sorted) && multiset(sorted) == multiset(cs)
  {
    sorted := [];
    var i := 0;
    while i < |cs|
      invariant i <= |cs| && Descending(sorted) && multiset(sorted) == multiset(cs[..i])
    {
      sorted := Insert(sorted, cs[i]);
      assert cs[..i + 1] == cs[..i] + [cs[i]];
      i := i + 1;
    }
    assert cs[..i] == cs;
  }

  method Insert(cs: seq<Candidate>, c: Candidate) returns (r: seq<Candidate>)
    requires Descending(cs)
    ensures Descending(r) && multiset(r) == multiset(cs) + multiset{c}
  {
    var i := 0;
    while i < |cs| && cs[i].prefix >= c.prefix
      invariant i <= |cs| && forall j | 0 <= j < i :: cs[j].prefix >= c.prefix
    {
      i := i + 1;
    }
    r := cs[..i] + [c] + cs[i..];
    assert cs == cs[..i] + cs[i..];
  }

  class Router {
    const manager: Managers.Manager
    var exitNode: PeerRecord?

    constructor (manager: Managers.Manager)
      ensures this.manager == manager && exitNode == null
    {
      this.manager, exitNode := manager, null;
    }

    method SetExitNode(p: PeerRecord?)
      modifies this
      ensures exitNode == p
    {
      exitNode := p;
    }

    /** Every candidate is a live peer with a matching route of that length. */
    ghost predicate AllMatch(cs: seq<Candidate>, dst: Address)
      reads manager
    {
      forall c | c in cs :: IsMatch(c, dst)
    }

    ghost predicate IsMatch(c: Candidate, dst: Address)
      reads manager
    {
      c.peer.key in manager.peers && manager.peers[c.peer.key] == c.peer &&
      exists route: Prefix :: route.bits == c.prefix && Matches(manager.table, c.peer.key, route, dst)
    }

    ghost predicate Covers(cs: seq<Candidate>, p: PeerRecord, routes: seq<Prefix>, dst: Address) {
      forall route | route in routes && Contains(route, dst) :: Candidate(p, route.bits) in cs
    }

    method AddCandidates(cs: seq<Candidate>, p: PeerRecord, dst: Address) returns (r: seq<Candidate>)
      requires manager.Valid() && p.key in manager.peers && manager.peers[p.key] == p && p.state != Expired
      requires AllMatch(cs, dst)
      ensures AllMatch(r, dst) && cs <= r && Covers(r, p, p.routes, dst)
    {
      r := cs;
      var i := 0;
      while i < |p.routes|
        invariant i <= |p.routes| && cs <= r && AllMatch(r, dst) && Covers(r, p, p.routes[..i], dst)
      {
        var route := p.routes[i];
        if Contains(route, dst) {
          assert Matches(manager.table, p.key, route, dst);
          r := r + [Candidate(p, route.bits)];
        }
        i := i + 1;
      }
      assert p.routes[..i] == p.routes;
    }

    method Candidates(dst: Address) returns (cs: seq<Candidate>)
      requires manager.Valid()
      ensures AllMatch(cs, dst)
      ensures forall k, route | Matches(manager.table, k, route, dst) ::
                k in manager.peers && Candidate(manager.peers[k], route.bits) in cs
    {
      cs := [];
      var todo := manager.peers.Keys;
      while todo != {}
        invariant todo <= manager.peers.Keys && AllMatch(cs, dst)
        invariant forall k | k in manager.peers.Keys - todo && manager.peers[k].state != Expired ::
          Covers(cs, manager.peers[k], manager.peers[k].routes, dst)
        decreases |todo|
      {
        var k :| k in todo;
        todo := todo - {k};
        if manager.peers[k].state != Expired { cs := AddCandidates(cs, manager.peers[k], dst); }
      }
    }

    /** A live owner of the address wins; otherwise a live peer with a longest matching prefix; the exit node gets
        the packet only when nothing matches, and there is an error (null) only when no rule applies. */
    method RoutePacket(dst: Address) returns (p: PeerRecord?)
      requires manager.Valid()
      ensures p != null ==> p.state != Expired
      ensures OwnerIsLive(manager.table, dst) ==>
                p != null && p.vip == dst && p.key == manager.table.byVIP[dst] && p in manager.peers.Values
      ensures !OwnerIsLive(manager.table, dst) && HasMatch(manager.table, dst) ==>
                p != null && p in manager.peers.Values && LongestMatch(manager.table, p.key, dst)
      ensures !OwnerIsLive(manager.table, dst) && !HasMatch(manager.table, dst) ==>
                p == if exitNode != null && exitNode.state != Expired then exitNode else null
      ensures p == null <==> !OwnerIsLive(manager.table, dst) && !HasMatch(manager.table, dst) &&
                             (exitNode == null || exitNode.state == Expired)
    {
      p := manager.GetPeerByVIP(dst);
      if p != null && p.state != Expired { return; }
      var candidates := Candidates(dst);
      if |candidates| > 0 {
        var sorted := SortDescending(candidates);
        FirstIsLongest(candidates, sorted, dst);
        p := sorted[0].peer;
        return;
      }
      p := if exitNode != null && exitNode.state != Expired then exitNode else null;
    }

    lemma FirstIsLongest(cs: seq<Candidate>, sorted: seq<Candidate>, dst: Address)
      requires manager.Valid() && AllMatch(cs, dst) && cs != []
      requires forall k, route | Matches(manager.table, k, route, dst) ::
                 k in manager.peers && Candidate(manager.peers[k], route.bits) in cs
      requires Descending(sorted) && multiset(sorted) == multiset(cs)
      ensures sorted != [] && sorted[0].peer.key in manager.peers && manager.peers[sorted[0].peer.key] == sorted[0].peer
      ensures sorted[0].peer.state != Expired
      ensures LongestMatch(manager.table, sorted[0].peer.key, dst)
    {
      assert |sorted| == |multiset(cs)|;
      var first := sorted[0];
      assert first in multiset(sorted);
      assert first in cs && IsMatch(first, dst);
      var best: Prefix :| best.bits == first.prefix && Matches(manager.table, first.peer.key, best, dst);
      forall l, other | Matches(manager.table, l, other, dst) ensures other.bits <= best.bits {
        var c := Candidate(manager.peers[l], other.bits);
        assert c in multiset(cs);
        assert c in sorted;
        var i :| 0 <= i < |sorted| && sorted[i] == c;
      }
      assert Longest(manager.table, best, dst);
    }
  }
}
