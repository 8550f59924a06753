/** The coordinator's store as an object: slices over arrays, the subscriber list, and the saved file. */
module Stores {
  import opened StoreState
  import Poll

  /** A Go channel of capacity one that only carries wake-ups. */
  class Channel {
    var token: bool

    constructor ()
      ensures !token
    {
      token := false;
    }
  }

  class Store {
    var nodes: array<Node>
    var nodeCount: nat
    var keys: array<AuthKey>
    var keyCount: nat
    var version: int
    var updatedAt: int
    var subscribers: seq<Channel>
    var disk: State

    ghost predicate Valid()
      reads this
    {
      nodeCount <= nodes.Length && keyCount <= keys.Length
    }

    ghost function View(): State
      reads this, nodes, keys
      requires Valid()
    {
      State(nodes[..nodeCount], keys[..keyCount], version, updatedAt)
    }

    constructor (loaded: State)
      ensures Valid() && fresh(nodes) && fresh(keys) && View() == loaded && disk == loaded && subscribers == []
    {
      var ns := new Node[|loaded.nodes|](i requires 0 <= i < |loaded.nodes| => loaded.nodes[i]);
      var ks := new AuthKey[|loaded.keys|](i requires 0 <= i < |loaded.keys| => loaded.keys[i]);
      nodes, nodeCount, keys, keyCount := ns, |loaded.nodes|, ks, |loaded.keys|;
      version, updatedAt, subscribers, disk := loaded.version, loaded.updatedAt, [], loaded;
      new;
      assert ns[..] == loaded.nodes && ks[..] == loaded.keys;
    }

    // -------------------------------------------------------------- subscribers

    method Subscribe() returns (ch: Channel)
      requires Valid()
      modifies this`subscribers
      ensures fresh(ch) && !ch.token && subscribers == old(subscribers) + [ch]
    {
      ch := new Channel();
      subscribers := subscribers + [ch];
    }

    method Cancel(ch: Channel)
      modifies this`subscribers
      ensures subscribers == Poll.Without(old(subscribers), ch)
    {
      var i := 0;
      while i < |subscribers|
        invariant 0 <= i <= |subscribers| && subscribers == old(subscribers)
        invariant Poll.Without(subscribers, ch) == subscribers[..i] + Poll.Without(subscribers[i..], ch)
      {
        if subscribers[i] == ch {
          subscribers := subscribers[..i] + subscribers[i + 1..];
          return;
        }
        i := i + 1;
      }
    }

    /** A send that would block is skipped: afterwards every subscriber's channel holds a token. */
    method Notify()
      modifies subscribers
      ensures forall ch | ch in subscribers :: ch.token
    {
      for i := 0 to |subscribers|
        invariant forall j | 0 <= j < i :: subscribers[j].token
      {
        if !subscribers[i].token { subscribers[i].token := true; }
      }
    }

    /** The file is replaced as a whole or not at all. */
    method SaveLocked(writeOk: bool) returns (ok: bool)
      requires Valid()
      modifies this`disk
      ensures ok == writeOk && disk == if writeOk then View() else old(disk)
    {
      if writeOk { disk := State(nodes[..nodeCount], keys[..keyCount], version, updatedAt); }
      ok := writeOk;
    }

    // -------------------------------------------------------------- node operations

    method FindNode(id: string) returns (i: nat)
      requires Valid()
      ensures i == IndexOf(nodes[..nodeCount], id)
    {
      i := 0;
      while i < nodeCount
        invariant i <= nodeCount && forall j | 0 <= j < i :: nodes[j].id != id
      {
        if nodes[i].id == id { break; }
        i := i + 1;
      }
      IndexOfIsFirst(nodes[..nodeCount], id, i);
    }

    method GetNodeByPubKey(pubKey: string) returns (found: bool, n: Node)
      requires Valid()
      ensures found <==> exists j :: 0 <= j < nodeCount && nodes[j].publicKey == pubKey
      ensures found ==> exists j: nat :: FirstOfKey(nodes[..nodeCount], j, pubKey) && nodes[j] == n
    {
      n := NO_NODE;
      for i := 0 to nodeCount
        invariant forall j | 0 <= j < i :: nodes[j].publicKey != pubKey
      {
        if nodes[i].publicKey == pubKey {
          assert FirstOfKey(nodes[..nodeCount], i, pubKey);
          return true, nodes[i];
        }
      }
      found := false;
    }

    /** Adds the node, or replaces the one with its id; the change stays in memory even when saving fails. */
    method AddNode(n: Node, now: int, writeOk: bool) returns (ok: bool)
      requires Valid()
      modifies this, nodes, subscribers
      ensures Valid() && (nodes == old(nodes) || fresh(nodes)) && keys == old(keys)
      ensures View() == old(State(WithNode(nodes[..nodeCount], n), keys[..keyCount], version + 1, now))
      ensures subscribers == old(subscribers) && forall ch | ch in subscribers :: ch.token
      ensures ok == writeOk && disk == if writeOk then View() else old(disk)
    {
      var i := FindNode(n.id);
      if i < nodeCount {
        nodes[i] := n;
        assert nodes[..nodeCount] == old(nodes[..nodeCount])[i := n];
      } else {
        AppendNode(n);
      }
      updatedAt := now;
      version := version + 1;
      Notify();
      ok := SaveLocked(writeOk);
    }

    /** append: in place when the array has room, into a larger array otherwise. */
    method AppendNode(n: Node)
      requires Valid()
      modifies this`nodes, this`nodeCount, nodes
      ensures Valid() && (nodes == old(nodes) || fresh(nodes))
      ensures nodes[..nodeCount] == old(nodes[..nodeCount]) + [n]
    {
      if nodeCount == nodes.Length {
        var more := new Node[2 * nodeCount + 1](_ => n);
        forall i | 0 <= i < nodeCount { more[i] := nodes[i]; }
        nodes := more;
      }
      nodes[nodeCount] := n;
      nodeCount := nodeCount + 1;
    }

    /** Replaces the stored node by what the caller's function made of it; the version does not move. */
    method UpdateNode(id: string, change: Node -> Node, now: int, writeOk: bool) returns (ok: bool)
      requires Valid()
      modifies this, nodes, subscribers
      ensures Valid() && nodes == old(nodes) && keys == old(keys)
      ensures var ns := old(nodes[..nodeCount]);
              var i := IndexOf(ns, id);
              if i < |ns| then
                View() == old(State(ns[i := change(ns[i])], keys[..keyCount], version, now)) &&
                ok == writeOk && disk == (if writeOk then View() else old(disk)) &&
                forall ch | ch in subscribers :: ch.token
              else !ok && View() == old(View()) && disk == old(disk)
      ensures subscribers == old(subscribers)
    {
      var i := FindNode(id);
      if i == nodeCount { return false; }
      nodes[i] := change(nodes[i]);
      assert nodes[..nodeCount] == old(nodes[..nodeCount])[i := change(old(nodes[i]))];
      updatedAt := now;
      Notify();
      ok := SaveLocked(writeOk);
    }

    /** append(nodes[:i], nodes[i+1:]...) moves the tail down inside the array. */
    method MoveDown(i: nat)
      requires Valid() && i < nodeCount
      modifies this`nodeCount, nodes
      ensures Valid() && nodes[..nodeCount] == old(nodes[..i] + nodes[i + 1..nodeCount])
    {
      forall j | i <= j < nodeCount - 1 { nodes[j] := nodes[j + 1]; }
      nodeCount := nodeCount - 1;
    }

    method DeleteNode(id: string, now: int, writeOk: bool) returns (ok: bool)
      requires Valid()
      modifies this, nodes, subscribers
      ensures Valid() && nodes == old(nodes) && keys == old(keys)
      ensures var ns := old(nodes[..nodeCount]);
              if IndexOf(ns, id) < |ns| then
                View() == old(State(WithoutNode(ns, id), keys[..keyCount], version, now)) &&
                ok == writeOk && disk == (if writeOk then View() else old(disk)) &&
                forall ch | ch in subscribers :: ch.token
              else !ok && View() == old(View()) && disk == old(disk)
      ensures subscribers == old(subscribers)
    {
      ghost var was := nodes[..nodeCount];
      var i := FindNode(id);
      if i == nodeCount { return false; }
      MoveDown(i);
      assert nodes[..nodeCount] == WithoutNode(was, id);
      updatedAt := now;
      Notify();
      ok := SaveLocked(writeOk);
    }

    // -------------------------------------------------------------- auth keys

    method FindKey(want: AuthKey -> bool) returns (i: nat)
      requires Valid()
      ensures i == KeyIndex(keys[..keyCount], want)
    {
      i := 0;
      while i < keyCount
        invariant i <= keyCount && forall j | 0 <= j < i :: !want(keys[j])
      {
        if want(keys[i]) { break; }
        i := i + 1;
      }
      KeyIndexIsFirst(keys[..keyCount], want, i);
    }

    /** Marks the first key of the id used; subscribers do not wake and the stamp does not move. */
    method MarkAuthKeyUsed(id: string, now: int, writeOk: bool) returns (ok: bool)
      requires Valid()
      modifies this`disk, keys
      ensures Valid()
      ensures MarksUsed(old(keys[..keyCount]), keys[..keyCount], id, now)
      ensures View() == old(View()).(keys := keys[..keyCount])
      ensures ok <==> writeOk && exists i :: 0 <= i < keyCount && keys[i].id == id
      ensures disk == if ok then View() else old(disk)
    {
      MarkedByIndex(keys[..keyCount], id, now);
      var i := FindKey(HasKeyId(id));
      if i == keyCount { return false; }
      keys[i] := keys[i].(used := true, usedAt := At(now));
      assert keys[..keyCount] == old(keys[..keyCount])[i := old(keys[i]).(used := true, usedAt := At(now))];
      ok := SaveLocked(writeOk);
    }

    // -------------------------------------------------------------- garbage collection

    method MarkStale(now: int) returns (dirty: bool)
      requires Valid()
      modifies nodes
      ensures nodes[..nodeCount] == MarkAll(old(nodes[..nodeCount]), now)
      ensures dirty <==> nodes[..nodeCount] != old(nodes[..nodeCount])
    {
      ghost var ns := nodes[..nodeCount];
      dirty := false;
      for i := 0 to nodeCount
        invariant forall j | 0 <= j < i :: nodes[j] == Marked(ns[j], now)
        invariant forall j | i <= j < nodeCount :: nodes[j] == ns[j]
        invariant dirty <==> exists j :: 0 <= j < i && Marked(ns[j], now) != ns[j]
      {
        if nodes[i].status.Online? && OlderThan(nodes[i].lastSeen, now, NODE_STALE_AGE) {
          nodes[i] := nodes[i].(status := Offline);
          dirty := true;
        }
      }
      assert nodes[..nodeCount] == MarkAll(ns, now);
      if dirty {
        ghost var j :| 0 <= j < nodeCount && Marked(ns[j], now) != ns[j];
        assert MarkAll(ns, now)[j] != ns[j];
      }
    }

    method DropNodes(now: int) returns (dirty: bool)
      requires Valid()
      modifies this`nodeCount, nodes
      ensures Valid() && nodes[..nodeCount] == Filter(KeepNode(now), old(nodes[..nodeCount]))
      ensures dirty <==> nodes[..nodeCount] != old(nodes[..nodeCount])
    {
      FilterUnchangedIffSameLength(KeepNode(now), nodes[..nodeCount]);
      var kept := Compact(nodes, nodeCount, KeepNode(now));
      dirty := kept != nodeCount;
      nodeCount := kept;
    }

    method DropKeys(now: int) returns (dirty: bool)
      requires Valid()
      modifies this`keyCount, keys
      ensures Valid() && keys[..keyCount] == GcKeys(old(keys[..keyCount]), now)
      ensures dirty <==> keys[..keyCount] != old(keys[..keyCount])
    {
      FilterUnchangedIffSameLength(KeepKey(now), keys[..keyCount]);
      var kept := Compact(keys, keyCount, KeepKey(now));
      dirty := kept != keyCount;
      keyCount := kept;
    }

    /** The three passes over the slices, and whether any of them changed something. */
    method CollectSlices(now: int) returns (dirty: bool)
      requires Valid()
      modifies this`nodeCount, this`keyCount, nodes, keys
      ensures Valid()
      ensures nodes[..nodeCount] == GcNodes(old(nodes[..nodeCount]), now)
      ensures keys[..keyCount] == GcKeys(old(keys[..keyCount]), now)
      ensures dirty <==>
        nodes[..nodeCount] != old(nodes[..nodeCount]) || keys[..keyCount] != old(keys[..keyCount])
    {
      MarkThenDropChanges(nodes[..nodeCount], now);
      var stale := MarkStale(now);
      var dropped := DropNodes(now);
      var pruned := DropKeys(now);
      dirty := stale || dropped || pruned;
    }

    /** State, stamp and version end as one collection of the old values, and subscribers wake exactly when
        something changed. */
    method RunGC(now: int, writeOk: bool)
      requires Valid()
      modifies this, nodes, keys, subscribers
      ensures Valid() && nodes == old(nodes) && keys == old(keys) && subscribers == old(subscribers)
      ensures View() == Collected(old(View()), now)
      ensures version == old(version) + if View() == old(View()) then 0 else 1
      ensures updatedAt == if View() == old(View()) then old(updatedAt) else now
      ensures View() != old(View()) ==> forall ch | ch in subscribers :: ch.token
      ensures disk == if View() != old(View()) && writeOk then View() else old(disk)
    {
      var dirty := CollectSlices(now);
      if dirty {
        updatedAt := now;
        version := version + 1;
        Notify();
        var _ := SaveLocked(writeOk);
      }
    }
  }

  /** A node marked stale is never back as it was after the drop, so any single dirty phase means a change. */
  lemma MarkThenDropChanges(ns: seq<Node>, now: int)
    ensures GcNodes(ns, now) != ns <==> MarkAll(ns, now) != ns || GcNodes(ns, now) != MarkAll(ns, now)
  {
    FilterUnchangedIffSameLength(KeepNode(now), MarkAll(ns, now));
  }

  /** kept := s[:0], then append what stays: reads and writes share one array. */
  method Compact<T>(a: array<T>, n: nat, keep: T -> bool) returns (kept: nat)
    requires n <= a.Length
    modifies a
    ensures kept <= n && a[..kept] == Filter(keep, old(a[..n]))
  {
    ghost var s := a[..n];
    kept := 0;
    for i := 0 to n
      invariant kept <= i && a[..kept] == Filter(keep, s[..i])
      invariant forall j | i <= j < n :: a[j] == s[j]
    {
      assert s[..i + 1][..i] == s[..i];
      if keep(a[i]) {
        a[kept] := a[i];
        kept := kept + 1;
      }
    }
    assert s[..n] == s;
  }
}
