/** The coordinator's stored state as values: registered nodes, auth keys, and what garbage collection does to them. */
module StoreState {
  import opened Words

  datatype Time = Never | At(t: int)
  datatype Status = Pending | Online | Offline
  datatype Node = Node(
    id: string, publicKey: string, hostname: string, virtualIP: u32, status: Status, lastSeen: Time,
    routes: seq<string>, isExitNode: bool, authKeyID: string, registeredAt: Time)

  /** No node: what a failed lookup leaves in a Go variable. */
  const NO_NODE := Node("", "", "", 0, Pending, Never, [], false, "", Never)

  datatype AuthKey = AuthKey(id: string, key: string, ephemeral: bool, expiresAt: Time, used: bool, usedAt: Time)

  /** No key, likewise. */
  const NO_KEY := AuthKey("", "", false, Never, false, Never)

  /** Seconds. */
  const NODE_STALE_AGE := 1800
  const NODE_EXPIRE_AGE := 86400
  const EPHEMERAL_KEY_AGE := 3600
  const KEY_EXPIRE_AGE := 86400

  datatype State = State(nodes: seq<Node>, keys: seq<AuthKey>, version: int, updatedAt: int)

  // ---------------------------------------------------------------- lookups and edits

  /** The first index with this id, or the length. */
  function IndexOf(ns: seq<Node>, id: string): (i: nat)
    ensures i <= |ns|
    ensures i < |ns| ==> ns[i].id == id
    ensures forall j | 0 <= j < i :: ns[j].id != id
  {
    if ns == [] then 0 else if ns[0].id == id then 0 else 1 + IndexOf(ns[1..], id)
  }

  /** The i-th node is the first with this public key. */
  predicate FirstOfKey(ns: seq<Node>, i: nat, pubKey: string) {
    i < |ns| && ns[i].publicKey == pubKey && forall j | 0 <= j < i :: ns[j].publicKey != pubKey
  }

  lemma IndexOfIsFirst(ns: seq<Node>, id: string, i: nat)
    requires i <= |ns| && (forall j | 0 <= j < i :: ns[j].id != id) && (i < |ns| ==> ns[i].id == id)
    ensures IndexOf(ns, id) == i
  {
  }

  function WithNode(ns: seq<Node>, n: Node): seq<Node> {
    var i := IndexOf(ns, n.id);
    if i < |ns| then ns[i := n] else ns + [n]
  }

  function WithoutNode(ns: seq<Node>, id: string): seq<Node> {
    var i := IndexOf(ns, id);
    if i < |ns| then ns[..i] + ns[i + 1..] else ns
  }

  /** The first key that satisfies want, or the length. */
  function KeyIndex(ks: seq<AuthKey>, want: AuthKey -> bool): (i: nat)
    ensures i <= |ks|
    ensures i < |ks| ==> want(ks[i])
    ensures forall j | 0 <= j < i :: !want(ks[j])
  {
    if ks == [] then 0 else if want(ks[0]) then 0 else 1 + KeyIndex(ks[1..], want)
  }

  lemma KeyIndexIsFirst(ks: seq<AuthKey>, want: AuthKey -> bool, i: nat)
    requires i <= |ks| && (forall j | 0 <= j < i :: !want(ks[j])) && (i < |ks| ==> want(ks[i]))
    ensures KeyIndex(ks, want) == i
  {
  }

  function HasSecret(secret: string): AuthKey -> bool {
    (k: AuthKey) => k.key == secret
  }

  function HasKeyId(id: string): AuthKey -> bool {
    (k: AuthKey) => k.id == id
  }

  /** Not expired, and not an ephemeral key that was used. */
  predicate ValidKey(k: AuthKey, now: int) {
    !(k.expiresAt.At? && now > k.expiresAt.t) && !(k.ephemeral && k.used)
  }

  /** The i-th key is the first with this secret. */
  predicate FirstOfSecret(ks: seq<AuthKey>, i: nat, secret: string) {
    i < |ks| && ks[i].key == secret && forall j | 0 <= j < i :: ks[j].key != secret
  }

  /** The key of a secret is turned away: there is none, it expired before now, or it is ephemeral and was used. */
  ghost predicate Refused(ks: seq<AuthKey>, secret: string, now: int) {
    forall i: nat | FirstOfSecret(ks, i, secret) ::
      (ks[i].expiresAt.At? && ks[i].expiresAt.t < now) || (ks[i].ephemeral && ks[i].used)
  }

  lemma RefusedIff(ks: seq<AuthKey>, secret: string, now: int)
    ensures var i := KeyIndex(ks, HasSecret(secret));
            (i < |ks| ==> FirstOfSecret(ks, i, secret)) &&
            (Refused(ks, secret, now) <==> i == |ks| || !ValidKey(ks[i], now))
  {
    var i := KeyIndex(ks, HasSecret(secret));
    forall j | 0 <= j < i ensures ks[j].key != secret { assert !HasSecret(secret)(ks[j]); }
    if i < |ks| { assert HasSecret(secret)(ks[i]); }
  }

  /** Time alone never brings a refused key back. */
  lemma RefusedStaysRefused(ks: seq<AuthKey>, secret: string, now: int, later: int)
    requires Refused(ks, secret, now) && now <= later
    ensures Refused(ks, secret, later)
  {
  }

  /** The first key of the id is marked as used; nothing else differs. */
  ghost predicate MarksUsed(before: seq<AuthKey>, after: seq<AuthKey>, id: string, now: int) {
    |after| == |before| && forall i | 0 <= i < |before| ::
      after[i] == if before[i].id == id && (forall j | 0 <= j < i :: before[j].id != id)
                  then before[i].(used := true, usedAt := At(now)) else before[i]
  }

  lemma MarkedByIndex(ks: seq<AuthKey>, id: string, now: int)
    ensures var i := KeyIndex(ks, HasKeyId(id));
            (i == |ks| <==> forall j | 0 <= j < |ks| :: ks[j].id != id) &&
            MarksUsed(ks, if i < |ks| then ks[i := ks[i].(used := true, usedAt := At(now))] else ks, id, now)
  {
    var i := KeyIndex(ks, HasKeyId(id));
    forall j | 0 <= j < i ensures ks[j].id != id { assert !HasKeyId(id)(ks[j]); }
    if i < |ks| { assert HasKeyId(id)(ks[i]); }
  }

  /** Once an ephemeral key is marked its secret is refused for good, if and only if no other key came first by its id,
      short of a key that expires anyway. */
  lemma MarkedIsRefusedIff(before: seq<AuthKey>, after: seq<AuthKey>, i: nat, now: int, later: int)
    requires i < |before| && FirstOfSecret(before, i, before[i].key) && before[i].ephemeral
    requires MarksUsed(before, after, before[i].id, now)
    ensures Refused(after, before[i].key, later) <==>
            Refused(before, before[i].key, later) || forall j | 0 <= j < i :: before[j].id != before[i].id
  {
    var secret := before[i].key;
    assert FirstOfSecret(after, i, secret);
    assert forall k: nat | FirstOfSecret(before, k, secret) :: k == i;
    assert forall k: nat | FirstOfSecret(after, k, secret) :: k == i;
  }

  ghost predicate DistinctIds(ns: seq<Node>) {
    forall i, j | 0 <= i < j < |ns| :: ns[i].id != ns[j].id
  }

  /** A node put in takes the place of the first one with its id, or comes last; all others stay in place. */
  lemma WithNodeMeans(ns: seq<Node>, n: Node)
    ensures (forall i | 0 <= i < |ns| :: ns[i].id != n.id) ==> WithNode(ns, n) == ns + [n]
    ensures (exists i | 0 <= i < |ns| :: ns[i].id == n.id) ==>
              |WithNode(ns, n)| == |ns| &&
              forall i | 0 <= i < |ns| ::
                WithNode(ns, n)[i] == if ns[i].id == n.id && (forall j | 0 <= j < i :: ns[j].id != n.id) then n else ns[i]
  {
  }

  /** Deleting takes out the first node of the id and leaves all others, in order. */
  lemma WithoutNodeMeans(before: seq<Node>, n: Node, after: seq<Node>, id: string)
    requires forall m | m in before :: m.id != id
    ensures n.id == id ==> WithoutNode(before + [n] + after, id) == before + after
    ensures WithoutNode(before, id) == before
  {
    var ns := before + [n] + after;
    if n.id == id {
      forall j | 0 <= j < |before| ensures ns[j].id != id { assert before[j] in before; }
      IndexOfIsFirst(ns, id, |before|);
      assert ns[..|before|] == before && ns[|before| + 1..] == after;
    }
    IndexOfIsFirst(before, id, |before|);
  }

  lemma EditsKeepDistinctIds(ns: seq<Node>, n: Node)
    requires DistinctIds(ns)
    ensures DistinctIds(WithNode(ns, n)) && DistinctIds(WithoutNode(ns, n.id))
  {
  }

  // ---------------------------------------------------------------- garbage collection

  predicate OlderThan(since: Time, now: int, age: int) {
    since.At? && now - since.t > age
  }

  function Marked(n: Node, now: int): Node {
    if n.status.Online? && OlderThan(n.lastSeen, now, NODE_STALE_AGE) then n.(status := Offline) else n
  }

  function KeepNode(now: int): Node -> bool {
    (n: Node) => !(n.status.Offline? && OlderThan(n.lastSeen, now, NODE_EXPIRE_AGE))
  }

  function KeepKey(now: int): AuthKey -> bool {
    (k: AuthKey) => !(k.ephemeral && k.used && OlderThan(k.usedAt, now, EPHEMERAL_KEY_AGE)) &&
                    !(!k.ephemeral && OlderThan(k.expiresAt, now, KEY_EXPIRE_AGE))
  }

  function Filter<T>(keep: T -> bool, s: seq<T>): (r: seq<T>)
    ensures |r| <= |s|
  {
    if s == [] then []
    else Filter(keep, s[..|s| - 1]) + (if keep(s[|s| - 1]) then [s[|s| - 1]] else [])
  }

  function MarkAll(ns: seq<Node>, now: int): (r: seq<Node>)
    ensures |r| == |ns|
  {
    seq(|ns|, i requires 0 <= i < |ns| => Marked(ns[i], now))
  }

  function GcNodes(ns: seq<Node>, now: int): seq<Node> {
    Filter(KeepNode(now), MarkAll(ns, now))
  }

  function GcKeys(ks: seq<AuthKey>, now: int): seq<AuthKey> {
    Filter(KeepKey(now), ks)
  }

  /** Stamp and version move only when nodes or keys changed. */
  function Collected(s: State, now: int): State {
    var nodes, keys := GcNodes(s.nodes, now), GcKeys(s.keys, now);
    if nodes == s.nodes && keys == s.keys then s else State(nodes, keys, s.version + 1, now)
  }

  lemma {:induction false} FilterUnchangedIffSameLength<T>(keep: T -> bool, s: seq<T>)
    ensures |Filter(keep, s)| == |s| <==> Filter(keep, s) == s
  {
    if s != [] {
      FilterUnchangedIffSameLength(keep, s[..|s| - 1]);
      assert s == s[..|s| - 1] + [s[|s| - 1]];
    }
  }

  lemma FilterSnoc<T>(keep: T -> bool, s: seq<T>, x: T)
    ensures Filter(keep, s + [x]) == if keep(x) then Filter(keep, s) + [x] else Filter(keep, s)
  {
    assert (s + [x])[..|s|] == s;
  }

  lemma GcSnoc(ns: seq<Node>, n: Node, now: int)
    ensures GcNodes(ns + [n], now) ==
            if KeepNode(now)(Marked(n, now)) then GcNodes(ns, now) + [Marked(n, now)] else GcNodes(ns, now)
  {
    assert MarkAll(ns + [n], now) == MarkAll(ns, now) + [Marked(n, now)];
    FilterSnoc(KeepNode(now), MarkAll(ns, now), Marked(n, now));
  }

  /** Collecting at t1 and then at t2 leaves the nodes and keys that collecting only at t2 leaves. */
  lemma GcAbsorbs(s: State, t1: int, t2: int)
    requires t1 <= t2
    ensures Collected(Collected(s, t1), t2).nodes == Collected(s, t2).nodes
    ensures Collected(Collected(s, t1), t2).keys == Collected(s, t2).keys
  {
    GcNodesAbsorb(s.nodes, t1, t2);
    GcKeysAbsorb(s.keys, t1, t2);
  }

  lemma {:induction false} GcNodesAbsorb(ns: seq<Node>, t1: int, t2: int)
    requires t1 <= t2
    ensures GcNodes(GcNodes(ns, t1), t2) == GcNodes(ns, t2)
  {
    if ns != [] {
      var front, last := ns[..|ns| - 1], ns[|ns| - 1];
      assert ns == front + [last];
      GcNodesAbsorb(front, t1, t2);
      GcSnoc(front, last, t1);
      GcSnoc(front, last, t2);
      GcSnoc(GcNodes(front, t1), Marked(last, t1), t2);
    }
  }

  lemma {:induction false} GcKeysAbsorb(ks: seq<AuthKey>, t1: int, t2: int)
    requires t1 <= t2
    ensures GcKeys(GcKeys(ks, t1), t2) == GcKeys(ks, t2)
  {
    if ks != [] {
      var front, last := ks[..|ks| - 1], ks[|ks| - 1];
      assert ks == front + [last];
      GcKeysAbsorb(front, t1, t2);
      FilterSnoc(KeepKey(t1), front, last);
      FilterSnoc(KeepKey(t2), front, last);
      FilterSnoc(KeepKey(t2), GcKeys(front, t1), last);
    }
  }

  // ---------------------------------------------------------------- who is collected

  predicate IsPending(n: Node) { n.status.Pending? }

  /** Pending nodes survive every collection, unchanged and in order. */
  lemma {:induction false} GcSparesPending(ns: seq<Node>, now: int)
    ensures Filter(IsPending, GcNodes(ns, now)) == Filter(IsPending, ns)
  {
    if ns != [] {
      var front, last := ns[..|ns| - 1], ns[|ns| - 1];
      assert ns == front + [last];
      GcSparesPending(front, now);
      GcSnoc(front, last, now);
      FilterSnoc(IsPending, GcNodes(front, now), Marked(last, now));
      FilterSnoc(IsPending, front, last);
    }
  }

  /** r has the elements of s at these places. */
  ghost predicate TakenFrom<T>(r: seq<T>, s: seq<T>, origin: seq<nat>) {
    |origin| == |r| && forall i | 0 <= i < |r| :: origin[i] < |s| && r[i] == s[origin[i]]
  }

  ghost predicate Rising(origin: seq<nat>) {
    forall i, j | 0 <= i < j < |origin| :: origin[i] < origin[j]
  }

  ghost predicate KeptPlaces<T>(keep: T -> bool, s: seq<T>, origin: seq<nat>) {
    forall k: nat | k < |s| :: k in origin <==> keep(s[k])
  }

  lemma KeptSnoc<T>(keep: T -> bool, s: seq<T>, origin: seq<nat>)
    requires s != [] && KeptPlaces(keep, s[..|s| - 1], origin) && forall o | o in origin :: o < |s| - 1
    ensures KeptPlaces(keep, s, if keep(s[|s| - 1]) then origin + [|s| - 1] else origin)
  {
    var n := |s| - 1;
    forall k: nat | k < n ensures k in origin <==> keep(s[k]) { assert s[..n][k] == s[k]; }
  }

  lemma TakenSnoc<T>(r: seq<T>, s: seq<T>, origin: seq<nat>)
    requires s != [] && TakenFrom(r, s[..|s| - 1], origin)
    ensures TakenFrom(r, s, origin) && TakenFrom(r + [s[|s| - 1]], s, origin + [|s| - 1])
  {
  }

  lemma RisingSnoc(origin: seq<nat>, n: nat)
    requires Rising(origin) && forall o | o in origin :: o < n
    ensures Rising(origin + [n])
  {
    forall i | 0 <= i < |origin| ensures origin[i] < n { assert origin[i] in origin; }
  }

  /** Where each element of the filtered sequence came from. */
  lemma {:induction false} FilterOrigin<T>(keep: T -> bool, s: seq<T>) returns (origin: seq<nat>)
    ensures TakenFrom(Filter(keep, s), s, origin) && Rising(origin) && KeptPlaces(keep, s, origin)
    ensures forall o | o in origin :: o < |s|
  {
    if s == [] { return []; }
    var n := |s| - 1;
    var before := FilterOrigin(keep, s[..n]);
    KeptSnoc(keep, s, before);
    TakenSnoc(Filter(keep, s[..n]), s, before);
    RisingSnoc(before, n);
    origin := if keep(s[n]) then before + [n] else before;
  }

  /** Whatever is left is an old node, at most marked offline; nothing is invented, reordered or readdressed. */
  lemma GcKeepsIdentity(ns: seq<Node>, now: int) returns (origin: seq<nat>)
    ensures |origin| == |GcNodes(ns, now)|
    ensures forall i | 0 <= i < |origin| :: origin[i] < |ns| && GcNodes(ns, now)[i] == Marked(ns[origin[i]], now)
    ensures forall i, j | 0 <= i < j < |origin| :: origin[i] < origin[j]
    ensures forall k: nat | k < |ns| :: k in origin <==> KeepNode(now)(Marked(ns[k], now))
  {
    origin := FilterOrigin(KeepNode(now), MarkAll(ns, now));
  }

  /** What a collection does to each node, by status and age: those online or offline and silent for over a day are
      gone, other online ones silent for over half an hour are offline, all others are as they were, in order. */
  lemma NodesCollected(s: State, now: int) returns (origin: seq<nat>)
    ensures |origin| == |Collected(s, now).nodes| && forall i, j | 0 <= i < j < |origin| :: origin[i] < origin[j]
    ensures forall k: nat | k < |s.nodes| ::
              k !in origin <==>
                !s.nodes[k].status.Pending? && s.nodes[k].lastSeen.At? && now - s.nodes[k].lastSeen.t > 86400
    ensures forall i | 0 <= i < |origin| :: origin[i] < |s.nodes| &&
              var was := s.nodes[origin[i]];
              Collected(s, now).nodes[i] ==
                if was.status.Online? && was.lastSeen.At? && now - was.lastSeen.t > 1800 then was.(status := Offline)
                else was
  {
    origin := GcKeepsIdentity(s.nodes, now);
  }

  /** And to each key: used ephemeral ones are gone an hour after their use, others a day after they expired. */
  lemma KeysCollected(s: State, now: int) returns (origin: seq<nat>)
    ensures |origin| == |Collected(s, now).keys| && forall i, j | 0 <= i < j < |origin| :: origin[i] < origin[j]
    ensures forall k: nat | k < |s.keys| ::
              k !in origin <==>
                if s.keys[k].ephemeral then s.keys[k].used && s.keys[k].usedAt.At? && now - s.keys[k].usedAt.t > 3600
                else s.keys[k].expiresAt.At? && now - s.keys[k].expiresAt.t > 86400
    ensures forall i | 0 <= i < |origin| :: origin[i] < |s.keys| && Collected(s, now).keys[i] == s.keys[origin[i]]
  {
    origin := FilterOrigin(KeepKey(now), s.keys);
  }
}
