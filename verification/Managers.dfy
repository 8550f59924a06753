/** The peer manager and the reconciliation, over peer records that change in place. */
module Managers {
  import opened Peers
  import opened Mesh

  class Manager {
    var peers: map<Key, PeerRecord>
    var byVIP: map<Address, PeerRecord>
    ghost var table: Table

    /** The records and the index are what the table says. */
    ghost predicate Valid()
      reads this, peers.Values, byVIP.Values
    {
      peers.Keys == table.peers.Keys && byVIP.Keys == table.byVIP.Keys &&
      (forall k | k in peers :: peers[k].key == k && peers[k].View() == table.peers[k]) &&
      (forall v | v in byVIP :: Indexed(byVIP[v], v, table.byVIP[v]))
    }

    ghost predicate Indexed(p: PeerRecord, v: Address, k: Key)
      reads this
    {
      p.key == k && p.vip == v && k in peers && peers[k] == p
    }

    constructor ()
      ensures Valid() && table == EMPTY && peers == map[]
    {
      peers, byVIP, table := map[], map[], EMPTY;
    }

    method MakeRecord(n: Node, now: int) returns (p: PeerRecord)
      requires n.key.Some? && n.vip.Some?
      ensures fresh(p) && p.View() == Added(n, now)
    {
      p := new PeerRecord(n.key.value, n.hostname, n.id, n.vip.value, now);
      if n.endpoint.Some? { p.endpoint := n.endpoint; }
      p.routes := n.routes;
    }

    method AddNew(n: Node, now: int)
      requires Valid() && n.key.Some? && n.vip.Some? && n.key.value !in peers
      modifies this
      ensures Valid() && table == Mesh.AddOrUpdate(old(table), n, now)
      ensures n.key.value in peers && fresh(peers[n.key.value])
      ensures peers == old(peers)[n.key.value := peers[n.key.value]]
    {
      var p := MakeRecord(n, now);
      peers := peers[n.key.value := p];
      byVIP := byVIP[n.vip.value := p];
      table := Mesh.AddOrUpdate(table, n, now);
    }

    method Update(p: PeerRecord, n: Node)
      modifies p
      ensures p.View() == Patched(old(p.View()), n)
    {
      p.hostname := n.hostname;
      if n.endpoint.Some? { p.endpoint := n.endpoint; }
      p.routes := n.routes;
      if p.state == Expired { p.state := Discovered; }
    }

    method AddOrUpdate(n: Node, now: int)
      requires Valid() && n.key.Some? && n.vip.Some?
      modifies this, if n.key.value in peers then {peers[n.key.value]} else {}
      ensures Valid() && table == Mesh.AddOrUpdate(old(table), n, now)
      ensures forall k | k in peers :: (k in old(peers) && peers[k] == old(peers)[k]) || fresh(peers[k])
    {
      if n.key.value !in peers {
        AddNew(n, now);
      } else {
        Update(peers[n.key.value], n);
        table := Mesh.AddOrUpdate(table, n, now);
      }
    }

    method Remove(k: Key)
      requires Valid()
      modifies this`table, if k in peers then {peers[k]} else {}
      ensures Valid() && table == Mesh.Remove(old(table), k)
    {
      if k in peers { peers[k].Transition(Expired); }
      table := Mesh.Remove(table, k);
    }

    method GetPeerByVIP(v: Address) returns (p: PeerRecord?)
      requires Valid()
      ensures p != null <==> v in table.byVIP
      ensures p != null ==> p.vip == v && p.key == table.byVIP[v] && p.key in peers && p == peers[p.key]
    {
      p := if v in byVIP then byVIP[v] else null;
    }

    method CheckOne(k: Key, now: int, ghost was: Table, ghost todo: set<Key>)
      requires Valid() && k in peers && k in todo && table == CheckedBut(was, todo, now)
      modifies this`table, peers[k]
      ensures Valid() && table == CheckedBut(was, todo - {k}, now)
    {
      peers[k].IdleCheck(now);
      table := table.(peers := table.peers[k := IdleChecked(table.peers[k], now)]);
      CheckingOneMore(was, todo, k, now);
    }

    /** The first loop of the collection. */
    method CheckIdle(now: int)
      requires Valid()
      modifies this`table, peers.Values
      ensures Valid() && table == CheckedBut(old(table), {}, now)
    {
      ghost var was := table;
      var todo := peers.Keys;
      CheckedNobody(was, now);
      while todo != {}
        invariant Valid() && todo <= peers.Keys && table == CheckedBut(was, todo, now)
        decreases |todo|
      {
        var k :| k in todo;
        CheckOne(k, now, was, todo);
        todo := todo - {k};
      }
    }

    method DropOne(k: Key)
      requires Valid() && k in peers
      modifies this
      ensures Valid() && table == Without(old(table), k) && peers == old(peers) - {k}
    {
      var p := peers[k];
      peers := peers - {k};
      byVIP := byVIP - {p.vip};
      table := Without(table, k);
    }

    method DropIfExpired(k: Key, now: int, ghost was: Table, ghost todo: set<Key>)
      requires Valid() && k in peers && k in todo && table == DroppedBut(was, todo, now)
      modifies this
      ensures Valid() && table == DroppedBut(was, todo - {k}, now) && peers.Keys >= old(peers.Keys) - {k}
    {
      DroppingOneMore(was, todo, k, now);
      if peers[k].state == Expired || now - peers[k].lastSeen > EXPIRED { DropOne(k); }
    }

    /** The second loop: expired peers leave, and with each of them whatever its address leads to. */
    method DropExpired(now: int)
      requires Valid()
      modifies this
      ensures Valid() && table == DroppedBut(old(table), {}, now)
    {
      ghost var was := table;
      var todo := peers.Keys;
      DroppedNobody(was, now);
      while todo != {}
        invariant Valid() && todo <= peers.Keys && table == DroppedBut(was, todo, now)
        decreases |todo|
      {
        var k :| k in todo;
        DropIfExpired(k, now, was, todo);
        todo := todo - {k};
      }
    }

    method CollectExpired(now: int)
      requires Valid()
      modifies this, peers.Values
      ensures Valid() && table == Gc(old(table), now)
    {
      ChecksAndDropsCollect(table, now);
      CheckIdle(now);
      DropExpired(now);
    }
  }

  class TopologyManager {
    const manager: Manager
    const self: Key

    constructor (manager: Manager, self: Key)
      ensures this.manager == manager && this.self == self
    {
      this.manager, this.self := manager, self;
    }

    method AddNodes(nodes: seq<Node>, now: int) returns (seen: set<Key>)
      requires manager.Valid()
      modifies manager, manager.peers.Values
      ensures manager.Valid() && manager.table == AddAll(old(manager.table), nodes, self, now)
      ensures seen == Seen(nodes, self)
      ensures forall k | k in manager.peers :: manager.peers[k] in old(manager.peers.Values) || fresh(manager.peers[k])
    {
      seen := {};
      var i := 0;
      while i < |nodes|
        invariant i <= |nodes| && manager.Valid() && seen == Seen(nodes[..i], self)
        invariant AddAll(manager.table, nodes[i..], self, now) == AddAll(old(manager.table), nodes, self, now)
        invariant forall k | k in manager.peers :: manager.peers[k] in old(manager.peers.Values) || fresh(manager.peers[k])
      {
        var n := nodes[i];
        SeenGrows(nodes[..i], n, self);
        assert nodes[..i + 1] == nodes[..i] + [n];
        if n.online && n.key.Some? && n.key.value != self {
          seen := seen + {n.key.value};
          if n.vip.Some? { manager.AddOrUpdate(n, now); }
        }
        i := i + 1;
      }
      assert nodes[..i] == nodes;
    }

    method ExpireIfUnseen(k: Key, seen: set<Key>, ghost was: Table, ghost todo: set<Key>)
      requires manager.Valid() && k in manager.peers && k in todo && manager.table == ExpireAllBut(was, seen + todo)
      modifies manager`table, manager.peers[k]
      ensures manager.Valid() && manager.table == ExpireAllBut(was, seen + (todo - {k}))
    {
      ExpiringOneMore(was, seen, todo, k);
      if k !in seen { manager.Remove(k); }
    }

    method ExpireUnseen(seen: set<Key>)
      requires manager.Valid()
      modifies manager`table, manager.peers.Values
      ensures manager.Valid() && manager.table == ExpireAllBut(old(manager.table), seen)
    {
      ghost var was := manager.table;
      var held := manager.peers.Keys;
      var todo := held;
      ExpiredNobody(was, seen);
      while todo != {}
        invariant manager.Valid() && manager.table == ExpireAllBut(was, seen + todo)
        invariant todo <= held == was.peers.Keys
        decreases |todo|
      {
        var k :| k in todo;
        ExpireIfUnseen(k, seen, was, todo);
        todo := todo - {k};
      }
      assert seen + todo == seen;
    }

    method Apply(nodes: seq<Node>, now: int)
      requires manager.Valid()
      modifies manager, manager.peers.Values
      ensures manager.Valid() && manager.table == Mesh.Apply(old(manager.table), nodes, self, now)
    {
      var seen := AddNodes(nodes, now);
      ExpireUnseen(seen);
    }
  }

  // ---------------------------------------------------------------- the loops on values

  /** The idle check has run on all peers but those of todo. */
  function CheckedBut(t: Table, todo: set<Key>, now: int): Table {
    t.(peers := map k | k in t.peers :: if k in todo then t.peers[k] else IdleChecked(t.peers[k], now))
  }

  lemma CheckedNobody(t: Table, now: int)
    ensures CheckedBut(t, t.peers.Keys, now) == t
  {
    assert CheckedBut(t, t.peers.Keys, now).peers == t.peers;
  }

  lemma CheckingOneMore(t: Table, todo: set<Key>, k: Key, now: int)
    requires k in t.peers && k in todo
    ensures var c := CheckedBut(t, todo, now);
            c.(peers := c.peers[k := IdleChecked(c.peers[k], now)]) == CheckedBut(t, todo - {k}, now)
  {
    var c := CheckedBut(t, todo, now);
    assert c.peers[k := IdleChecked(c.peers[k], now)] == CheckedBut(t, todo - {k}, now).peers;
  }

  function Without(t: Table, k: Key): Table
    requires k in t.peers
  {
    Table(t.peers - {k}, t.byVIP - {t.peers[k].vip})
  }

  /** The deletion has run on all peers but those of todo. */
  function DroppedBut(t: Table, todo: set<Key>, now: int): Table {
    var gone := Dropped(t, now) - todo;
    Table(t.peers - gone, t.byVIP - (set k | k in gone :: t.peers[k].vip))
  }

  lemma DroppedNobody(t: Table, now: int)
    ensures DroppedBut(t, t.peers.Keys, now) == t
  {
    var gone := Dropped(t, now) - t.peers.Keys;
    assert gone == {};
    assert t.peers - gone == t.peers;
  }

  lemma MinusOneMore<K, V>(m: map<K, V>, ks: set<K>, k: K)
    ensures m - ks - {k} == m - (ks + {k})
  {
  }

  lemma DroppingOneMore(t: Table, todo: set<Key>, k: Key, now: int)
    requires k in todo && k in DroppedBut(t, todo, now).peers
    ensures k in t.peers && DroppedBut(t, todo, now).peers[k] == t.peers[k]
    ensures if IsExpired(t.peers[k], now) then DroppedBut(t, todo - {k}, now) == Without(DroppedBut(t, todo, now), k)
            else DroppedBut(t, todo - {k}, now) == DroppedBut(t, todo, now)
  {
    var gone := Dropped(t, now) - todo;
    if IsExpired(t.peers[k], now) {
      assert Dropped(t, now) - (todo - {k}) == gone + {k};
      var vips := set l | l in gone :: t.peers[l].vip;
      assert (set l | l in gone + {k} :: t.peers[l].vip) == vips + {t.peers[k].vip};
      MinusOneMore(t.peers, gone, k);
      MinusOneMore(t.byVIP, vips, t.peers[k].vip);
    } else {
      assert Dropped(t, now) - (todo - {k}) == gone;
    }
  }

  /** The two loops collect: the idle check leaves it to the deletion which peers go. */
  lemma ChecksAndDropsCollect(t: Table, now: int)
    ensures DroppedBut(CheckedBut(t, {}, now), {}, now) == Gc(t, now)
  {
    var c, dead := CheckedBut(t, {}, now), Dropped(t, now);
    assert Dropped(c, now) == dead;
    assert dead - {} == dead;
    assert (set k | k in dead :: c.peers[k].vip) == (set k | k in dead :: t.peers[k].vip);
    assert c.peers - dead == Gc(t, now).peers;
  }

  lemma SeenGrows(nodes: seq<Node>, n: Node, self: Key)
    ensures Seen(nodes + [n], self) == Seen(nodes, self) + if Wanted(n, self) then {n.key.value} else {}
  {
    assert n in nodes + [n];
  }

  lemma ExpiringOneMore(t: Table, seen: set<Key>, todo: set<Key>, k: Key)
    requires k in todo && k in t.peers
    ensures var e := ExpireAllBut(t, seen + todo);
            ExpireAllBut(t, seen + (todo - {k})) == if k in seen then e else Mesh.Remove(e, k)
  {
    if k in seen { assert seen + (todo - {k}) == seen + todo; }
  }

  lemma ExpiredNobody(t: Table, seen: set<Key>)
    ensures ExpireAllBut(t, seen + t.peers.Keys) == t
  {
    assert ExpireAllBut(t, seen + t.peers.Keys).peers == t.peers;
  }
}
