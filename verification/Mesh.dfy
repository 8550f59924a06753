/** The peer table and its address index, as values: reconciliation with a topology snapshot and collection of
    expired peers. */
module Mesh {
  import opened Options
  import opened Peers

  /** A node of a snapshot as the reconciliation reads it: key, address, endpoint and routes are what parsing the
      node's text yields. */
  datatype Node = Node(
    id: string, online: bool, key: Option<Key>, hostname: string,
    vip: Option<Address>, endpoint: Option<string>, routes: seq<Prefix>)

  datatype Table = Table(peers: map<Key, Peer>, byVIP: map<Address, Key>)

  const EMPTY := Table(map[], map[])

  predicate Wanted(n: Node, self: Key) {
    n.online && n.key.Some? && n.key.value != self
  }

  predicate Usable(n: Node, self: Key) {
    Wanted(n, self) && n.vip.Some?
  }

  function Added(n: Node, now: int): Peer
    requires n.key.Some? && n.vip.Some?
  {
    Peer(n.key.value, n.hostname, n.id, n.vip.value, n.endpoint, n.routes, Discovered, now)
  }

  function Patched(p: Peer, n: Node): Peer {
    p.(hostname := n.hostname, routes := n.routes,
       endpoint := if n.endpoint.Some? then n.endpoint else p.endpoint,
       state := if p.state == Expired then Discovered else p.state)
  }

  function AddOrUpdate(t: Table, n: Node, now: int): Table
    requires n.key.Some? && n.vip.Some?
  {
    var k := n.key.value;
    if k in t.peers then t.(peers := t.peers[k := Patched(t.peers[k], n)])
    else Table(t.peers[k := Added(n, now)], t.byVIP[n.vip.value := k])
  }

  function AddAll(t: Table, nodes: seq<Node>, self: Key, now: int): Table
    decreases |nodes|
  {
    if nodes == [] then t
    else AddAll(if Usable(nodes[0], self) then AddOrUpdate(t, nodes[0], now) else t, nodes[1..], self, now)
  }

  function Seen(nodes: seq<Node>, self: Key): set<Key> {
    set n | n in nodes && Wanted(n, self) :: n.key.value
  }

  function Remove(t: Table, k: Key): Table {
    if k in t.peers then t.(peers := t.peers[k := t.peers[k].(state := Expired)]) else t
  }

  function ExpireAllBut(t: Table, seen: set<Key>): Table {
    t.(peers := map k | k in t.peers :: if k in seen then t.peers[k] else t.peers[k].(state := Expired))
  }

  function Apply(t: Table, nodes: seq<Node>, self: Key, now: int): Table {
    ExpireAllBut(AddAll(t, nodes, self, now), Seen(nodes, self))
  }

  function Dropped(t: Table, now: int): set<Key> {
    set k | k in t.peers && IsExpired(t.peers[k], now)
  }

  function Gc(t: Table, now: int): Table {
    var dead := Dropped(t, now);
    Table(map k | k in t.peers && k !in dead :: IdleChecked(t.peers[k], now),
          t.byVIP - (set k | k in dead :: t.peers[k].vip))
  }

  // ---------------------------------------------------------------- after an Apply

  lemma {:induction false} AddAllHolds(t: Table, nodes: seq<Node>, self: Key, now: int)
    ensures t.peers.Keys <= AddAll(t, nodes, self, now).peers.Keys
    ensures forall k | k in t.peers && t.peers[k].state != Expired ::
              AddAll(t, nodes, self, now).peers[k].state != Expired
    ensures forall n | n in nodes && Usable(n, self) ::
              n.key.value in AddAll(t, nodes, self, now).peers &&
              AddAll(t, nodes, self, now).peers[n.key.value].state != Expired
    decreases |nodes|
  {
    if nodes != [] {
      AddAllHolds(if Usable(nodes[0], self) then AddOrUpdate(t, nodes[0], now) else t, nodes[1..], self, now);
    }
  }

  /** Every peer that is not expired is an online node other than this one, and every online node other than this
      one with a valid key and address is a peer that is not expired. */
  lemma ApplyReconciles(t: Table, nodes: seq<Node>, self: Key, now: int)
    ensures var t' := Apply(t, nodes, self, now);
            (forall k | k in t'.peers && t'.peers[k].state != Expired ::
               k != self && exists n :: n in nodes && n.online && n.key == Some(k)) &&
            (forall n | n in nodes && n.online && n.key.Some? && n.vip.Some? && n.key.value != self ::
               n.key.value in t'.peers && t'.peers[n.key.value].state != Expired)
  {
    AddAllHolds(t, nodes, self, now);
    var t' := Apply(t, nodes, self, now);
    forall k | k in t'.peers && t'.peers[k].state != Expired
      ensures k != self && exists n :: n in nodes && n.online && n.key == Some(k)
    {
      var n :| n in nodes && Wanted(n, self) && n.key.value == k;
      assert n in nodes && n.online && n.key == Some(k);
    }
  }

  // ---------------------------------------------------------------- what an Apply sets

  /** The snapshot lists peer k, online and with an address. */
  predicate Lists(n: Node, self: Key, k: Key) {
    n.online && n.key == Some(k) && k != self && n.vip.Some?
  }

  function FirstNode(nodes: seq<Node>, self: Key, k: Key): Option<Node> {
    if nodes == [] then None
    else
      var n := |nodes| - 1;
      var first := FirstNode(nodes[..n], self, k);
      if first.Some? then first else if Lists(nodes[n], self, k) then Some(nodes[n]) else None
  }

  function LastNode(nodes: seq<Node>, self: Key, k: Key): Option<Node> {
    if nodes == [] then None
    else
      var n := |nodes| - 1;
      if Lists(nodes[n], self, k) then Some(nodes[n]) else LastNode(nodes[..n], self, k)
  }

  /** The last endpoint listed for k that parsed, or what was known before. */
  function LastEndpoint(nodes: seq<Node>, self: Key, k: Key, before: Option<string>): Option<string> {
    if nodes == [] then before
    else
      var n := |nodes| - 1;
      if Lists(nodes[n], self, k) && nodes[n].endpoint.Some? then nodes[n].endpoint
      else LastEndpoint(nodes[..n], self, k, before)
  }

  lemma {:induction false} AddAllSnoc(t: Table, nodes: seq<Node>, n: Node, self: Key, now: int)
    ensures AddAll(t, nodes + [n], self, now) ==
            var t' := AddAll(t, nodes, self, now); if Usable(n, self) then AddOrUpdate(t', n, now) else t'
    decreases |nodes|
  {
    if nodes != [] {
      assert (nodes + [n])[1..] == nodes[1..] + [n];
      AddAllSnoc(if Usable(nodes[0], self) then AddOrUpdate(t, nodes[0], now) else t, nodes[1..], n, self, now);
    }
  }

  /** A peer the snapshot lists: name and routes of its last node, the last endpoint known, and alive; a peer held
      before keeps id, address and last-seen time, a new one has those of its first node and the present. */
  ghost predicate IsListed(q: Peer, t: Table, nodes: seq<Node>, self: Key, now: int, k: Key)
    requires FirstNode(nodes, self, k).Some? && LastNode(nodes, self, k).Some?
  {
    var first, last := FirstNode(nodes, self, k).value, LastNode(nodes, self, k).value;
    q.key == k && q.hostname == last.hostname && q.routes == last.routes &&
    if k in t.peers
    then
      var p := t.peers[k];
      q.endpoint == LastEndpoint(nodes, self, k, p.endpoint) && q.nodeID == p.nodeID && q.vip == p.vip &&
      q.lastSeen == p.lastSeen && q.state == if p.state == Expired then Discovered else p.state
    else
      q.endpoint == LastEndpoint(nodes, self, k, None) && q.nodeID == first.id && Some(q.vip) == first.vip &&
      q.lastSeen == now && q.state == Discovered
  }

  ghost predicate Brings(t: Table, nodes: seq<Node>, self: Key, now: int, t': Table, k: Key) {
    (FirstNode(nodes, self, k).Some? <==> LastNode(nodes, self, k).Some?) &&
    if LastNode(nodes, self, k).Some?
    then k in t'.peers && IsListed(t'.peers[k], t, nodes, self, now, k)
    else (k in t'.peers <==> k in t.peers) && (k in t.peers ==> t'.peers[k] == t.peers[k])
  }

  lemma {:induction false} NoneListed(nodes: seq<Node>, self: Key, k: Key, before: Option<string>)
    requires LastNode(nodes, self, k).None?
    ensures LastEndpoint(nodes, self, k, before) == before
    decreases |nodes|
  {
    if nodes != [] { NoneListed(nodes[..|nodes| - 1], self, k, before); }
  }

  lemma OneMoreBrings(t: Table, nodes: seq<Node>, self: Key, now: int, t': Table, k: Key)
    requires nodes != [] && KeysMatch(t) && KeysMatch(t') && Brings(t, nodes[..|nodes| - 1], self, now, t', k)
    ensures var n := nodes[|nodes| - 1];
            Brings(t, nodes, self, now, if Usable(n, self) then AddOrUpdate(t', n, now) else t', k)
  {
    var m := |nodes| - 1;
    var n, front := nodes[m], nodes[..m];
    if Lists(n, self, k) {
      assert Usable(n, self);
      if LastNode(front, self, k).Some? {
        assert IsListed(t'.peers[k], t, front, self, now, k);
      } else {
        NoneListed(front, self, k, if k in t.peers then t.peers[k].endpoint else None);
      }
    } else if Usable(n, self) {
      assert n.key.value != k;
    }
  }

  lemma {:induction false} AddAllBrings(t: Table, nodes: seq<Node>, self: Key, now: int, k: Key)
    requires KeysMatch(t)
    ensures Brings(t, nodes, self, now, AddAll(t, nodes, self, now), k)
    decreases |nodes|
  {
    if nodes != [] {
      var n := |nodes| - 1;
      assert nodes == nodes[..n] + [nodes[n]];
      AddAllBrings(t, nodes[..n], self, now, k);
      AddAllPatches(t, nodes[..n], self, now);
      AddAllSnoc(t, nodes[..n], nodes[n], self, now);
      OneMoreBrings(t, nodes, self, now, AddAll(t, nodes[..n], self, now), k);
    }
  }

  /** What a reconciliation makes of each peer: one that is listed is as its nodes say; one that is only named, without
      an address, is as before; any other is expired. */
  lemma ApplyBrings(t: Table, nodes: seq<Node>, self: Key, now: int, k: Key)
    requires KeysMatch(t)
    ensures var t' := Apply(t, nodes, self, now);
            if exists n :: n in nodes && Lists(n, self, k)
            then LastNode(nodes, self, k).Some? && FirstNode(nodes, self, k).Some? &&
                 k in t'.peers && IsListed(t'.peers[k], t, nodes, self, now, k)
            else (k in t'.peers <==> k in t.peers) &&
                 (k in t.peers ==>
                    t'.peers[k] == if exists n :: n in nodes && n.online && n.key == Some(k) && k != self then t.peers[k]
                                   else t.peers[k].(state := Expired))
  {
    AddAllBrings(t, nodes, self, now, k);
    LastIfListed(nodes, self, k);
  }

  lemma {:induction false} LastIfListed(nodes: seq<Node>, self: Key, k: Key)
    ensures LastNode(nodes, self, k).Some? <==> exists n :: n in nodes && Lists(n, self, k)
    decreases |nodes|
  {
    if nodes != [] {
      var n := |nodes| - 1;
      assert nodes == nodes[..n] + [nodes[n]];
      LastIfListed(nodes[..n], self, k);
    }
  }

  // ---------------------------------------------------------------- Apply twice is Apply once

  /** What a snapshot does to a peer already held under key k. */
  function PatchedAll(p: Peer, nodes: seq<Node>, self: Key): Peer
    decreases |nodes|
  {
    if nodes == [] then p
    else PatchedAll(if Usable(nodes[0], self) && nodes[0].key.value == p.key then Patched(p, nodes[0]) else p,
                    nodes[1..], self)
  }

  ghost predicate KeysMatch(t: Table) {
    forall k | k in t.peers :: t.peers[k].key == k
  }

  lemma {:induction false} AddAllPatches(t: Table, nodes: seq<Node>, self: Key, now: int)
    requires KeysMatch(t)
    ensures KeysMatch(AddAll(t, nodes, self, now))
    ensures forall k | k in t.peers :: k in AddAll(t, nodes, self, now).peers &&
              AddAll(t, nodes, self, now).peers[k] == PatchedAll(t.peers[k], nodes, self)
    ensures (forall n | n in nodes && Usable(n, self) :: n.key.value in t.peers) ==>
              AddAll(t, nodes, self, now).byVIP == t.byVIP && AddAll(t, nodes, self, now).peers.Keys == t.peers.Keys
    decreases |nodes|
  {
    if nodes != [] {
      AddAllPatches(if Usable(nodes[0], self) then AddOrUpdate(t, nodes[0], now) else t, nodes[1..], self, now);
    }
  }

  /** Two peers with one key that differ at most in what a snapshot sets. */
  ghost predicate Alike(p: Peer, q: Peer) {
    q == p.(hostname := q.hostname, routes := q.routes, endpoint := q.endpoint, state := q.state)
  }

  /** A snapshot that touches two peers alike makes them the same, up to an endpoint it never sets. */
  lemma {:induction false} PatchesForget(p: Peer, q: Peer, nodes: seq<Node>, self: Key)
    requires Alike(p, q)
    ensures var p', q' := PatchedAll(p, nodes, self), PatchedAll(q, nodes, self);
            Alike(p', q') &&
            (p'.endpoint == q'.endpoint || (p'.endpoint == p.endpoint && q'.endpoint == q.endpoint)) &&
            ((p' == p && q' == q) || (p'.hostname == q'.hostname && p'.routes == q'.routes)) &&
            (p.state == q.state ==> p'.state == q'.state)
    decreases |nodes|
  {
    if nodes != [] {
      var touch := Usable(nodes[0], self) && nodes[0].key.value == p.key;
      PatchesForget(if touch then Patched(p, nodes[0]) else p, if touch then Patched(q, nodes[0]) else q,
                    nodes[1..], self);
    }
  }

  lemma {:induction false} PatchedStays(p: Peer, nodes: seq<Node>, self: Key)
    ensures Alike(p, PatchedAll(p, nodes, self))
    ensures p.state != Expired ==> PatchedAll(p, nodes, self).state == p.state
    ensures PatchedAll(p, nodes, self) == p || PatchedAll(p, nodes, self).state != Expired
    decreases |nodes|
  {
    if nodes != [] {
      PatchedStays(if Usable(nodes[0], self) && nodes[0].key.value == p.key then Patched(p, nodes[0]) else p,
                   nodes[1..], self);
    }
  }

  lemma PatchTwice(p: Peer, nodes: seq<Node>, self: Key)
    ensures PatchedAll(PatchedAll(p, nodes, self), nodes, self) == PatchedAll(p, nodes, self)
  {
    var q := PatchedAll(p, nodes, self);
    PatchedStays(p, nodes, self);
    PatchedStays(q, nodes, self);
    PatchesForget(p, q, nodes, self);
  }

  /** Every peer held after a pass over the snapshot is one that the snapshot patched. */
  lemma {:induction false} HeldIsPatched(t: Table, nodes: seq<Node>, self: Key, now: int, k: Key) returns (p: Peer)
    requires KeysMatch(t) && k in AddAll(t, nodes, self, now).peers
    ensures p.key == k && AddAll(t, nodes, self, now).peers[k] == PatchedAll(p, nodes, self)
    decreases |nodes|
  {
    AddAllPatches(t, nodes, self, now);
    if k in t.peers { return t.peers[k]; }
    var n, rest := nodes[0], nodes[1..];
    var t1 := if Usable(n, self) then AddOrUpdate(t, n, now) else t;
    if k in t1.peers {
      AddAllPatches(t1, rest, self, now);
      assert Patched(Added(n, now), n) == Added(n, now);
      return Added(n, now);
    }
    p := HeldIsPatched(t1, rest, self, now, k);
  }

  lemma {:induction false} UnseenIsUntouched(p: Peer, nodes: seq<Node>, self: Key)
    requires p.key !in Seen(nodes, self)
    ensures PatchedAll(p, nodes, self) == p
    decreases |nodes|
  {
    if nodes != [] {
      assert nodes[0] in nodes;
      assert Seen(nodes[1..], self) <= Seen(nodes, self);
      UnseenIsUntouched(p, nodes[1..], self);
    }
  }

  lemma SecondPassKeeps(t: Table, nodes: seq<Node>, self: Key, now: int, later: int)
    requires KeysMatch(t)
    ensures AddAll(Apply(t, nodes, self, now), nodes, self, later) == Apply(t, nodes, self, now)
  {
    var seen := Seen(nodes, self);
    var a, b := AddAll(t, nodes, self, now), Apply(t, nodes, self, now);
    AddAllHolds(t, nodes, self, now);
    AddAllPatches(t, nodes, self, now);
    AddAllPatches(b, nodes, self, later);
    forall k | k in b.peers ensures PatchedAll(b.peers[k], nodes, self) == b.peers[k] {
      if k in seen {
        var p := HeldIsPatched(t, nodes, self, now, k);
        PatchTwice(p, nodes, self);
      } else {
        UnseenIsUntouched(b.peers[k], nodes, self);
      }
    }
  }

  /** Applying a snapshot a second time, at any time, changes nothing. */
  lemma ApplyIsIdempotent(t: Table, nodes: seq<Node>, self: Key, now: int, later: int)
    requires KeysMatch(t)
    ensures Apply(Apply(t, nodes, self, now), nodes, self, later) == Apply(t, nodes, self, now)
  {
    SecondPassKeeps(t, nodes, self, now, later);
  }

  // ---------------------------------------------------------------- the address index

  /** Every entry of the index leads to a held peer with that address. */
  ghost predicate Sound(t: Table) {
    KeysMatch(t) && forall v | v in t.byVIP :: t.byVIP[v] in t.peers && t.peers[t.byVIP[v]].vip == v
  }

  /** The address of every held peer is in the index. */
  ghost predicate Covered(t: Table) {
    forall k | k in t.peers :: t.peers[k].vip in t.byVIP
  }

  ghost predicate DistinctAddresses(t: Table) {
    forall k, l | k in t.peers && l in t.peers && t.peers[k].vip == t.peers[l].vip :: k == l
  }

  /** The index answers as a scan of the peers would. */
  ghost predicate IndexIsScan(t: Table) {
    forall v: Address, k :: (v in t.byVIP && t.byVIP[v] == k) <==> (k in t.peers && t.peers[k].vip == v)
  }

  lemma CoveredIsScan(t: Table)
    requires Sound(t) && DistinctAddresses(t)
    ensures IndexIsScan(t) <==> Covered(t)
  {
    if Covered(t) {
      forall v: Address, k ensures (v in t.byVIP && t.byVIP[v] == k) <==> (k in t.peers && t.peers[k].vip == v) {
        if k in t.peers && t.peers[k].vip == v { assert t.peers[t.byVIP[v]].vip == v; }
      }
    } else {
      var k :| k in t.peers && t.peers[k].vip !in t.byVIP;
      assert (t.peers[k].vip !in t.byVIP) && !IndexIsScan(t);
    }
  }

  lemma AddKeepsIndex(t: Table, n: Node, now: int)
    requires Sound(t) && n.key.Some? && n.vip.Some?
    ensures Sound(AddOrUpdate(t, n, now))
    ensures Covered(t) ==> Covered(AddOrUpdate(t, n, now))
  {
  }

  lemma {:induction false} AddAllKeepsIndex(t: Table, nodes: seq<Node>, self: Key, now: int)
    requires Sound(t)
    ensures Sound(AddAll(t, nodes, self, now))
    ensures Covered(t) ==> Covered(AddAll(t, nodes, self, now))
    decreases |nodes|
  {
    if nodes != [] {
      if Usable(nodes[0], self) { AddKeepsIndex(t, nodes[0], now); }
      AddAllKeepsIndex(if Usable(nodes[0], self) then AddOrUpdate(t, nodes[0], now) else t, nodes[1..], self, now);
    }
  }

  /** Reconciliation keeps the index sound, and covering if it was. */
  lemma ApplyKeepsIndex(t: Table, nodes: seq<Node>, self: Key, now: int)
    requires Sound(t)
    ensures Sound(Apply(t, nodes, self, now))
    ensures Covered(t) ==> Covered(Apply(t, nodes, self, now))
  {
    AddAllKeepsIndex(t, nodes, self, now);
  }

  /** Collection keeps exactly the peers that are not expired. */
  lemma GcDropsExactlyTheExpired(t: Table, now: int)
    ensures forall k :: k in Gc(t, now).peers <==>
              k in t.peers && t.peers[k].state != Expired && now - t.peers[k].lastSeen <= 600
    ensures forall k | k in Gc(t, now).peers ::
              !IsExpired(Gc(t, now).peers[k], now) && Gc(t, now).peers[k] == IdleChecked(t.peers[k], now)
  {
  }

  lemma GcKeepsSound(t: Table, now: int)
    requires Sound(t)
    ensures Sound(Gc(t, now))
  {
    var t' := Gc(t, now);
    forall v | v in t'.byVIP ensures t'.byVIP[v] in t'.peers && t'.peers[t'.byVIP[v]].vip == v {
      var k := t.byVIP[v];
      assert t.peers[k].vip == v;
      assert k !in Dropped(t, now);
    }
  }

  /** No peer about to be dropped shares its address with one that stays. */
  ghost predicate NoSharedWithDropped(t: Table, now: int) {
    forall k, l | k in t.peers && l in t.peers && IsExpired(t.peers[k], now) && t.peers[k].vip == t.peers[l].vip ::
      IsExpired(t.peers[l], now)
  }

  /** Collection keeps every surviving peer reachable by its address exactly when no expired peer shares an address
      with a surviving one: it deletes by address, whoever the entry leads to. */
  lemma GcKeepsCoveredIff(t: Table, now: int)
    requires Sound(t) && Covered(t)
    ensures Covered(Gc(t, now)) <==> NoSharedWithDropped(t, now)
  {
    var t' := Gc(t, now);
    var dead := Dropped(t, now);
    if NoSharedWithDropped(t, now) {
      forall l | l in t'.peers ensures t'.peers[l].vip in t'.byVIP {
        assert !IsExpired(t.peers[l], now);
        assert forall k | k in dead :: t.peers[k].vip != t.peers[l].vip;
      }
    } else {
      var k, l :| k in t.peers && l in t.peers && IsExpired(t.peers[k], now) &&
                  t.peers[k].vip == t.peers[l].vip && !IsExpired(t.peers[l], now);
      assert k in dead && l in t'.peers && t'.peers[l].vip == t.peers[l].vip;
      assert t.peers[k].vip !in t'.byVIP;
    }
  }
}
