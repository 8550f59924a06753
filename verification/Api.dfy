/** The coordinator's request handlers, each run alone over the store and the pool objects. */
module Api {
  import opened Words
  import opened StoreState
  import opened IPPool
  import opened Stores
  import C = Coordinator

  datatype Response =
    | Registered(nodeID: string, virtualIP: u32, hostname: string)
    | Unauthorized
    | StoreError
    | PoolExhausted

  datatype Request = Request(
    publicKey: string, hostname: string, authKey: string, routes: seq<string>, isExitNode: bool)

  datatype AdminResponse = Done | NotFound | InvalidID

  class Server {
    const store: Store
    const pool: AddressPool
    const manualApproval: bool
    ghost var issued: set<NodeID>

    /** The objects' state as a state of the coordinator's step model, with no registration in flight. */
    ghost function Sys(): C.Sys
      reads this, store, store.nodes, store.keys, pool
      requires store.Valid()
    {
      C.Sys(store.nodes[..store.nodeCount], store.disk.nodes, pool.View(), map[], issued)
    }

    ghost predicate Valid()
      reads this, store, store.nodes, store.keys, pool
    {
      store.Valid() && pool.Valid() && C.Inv(Sys())
    }

    /** A restart: loads the saved state and reserves every saved address again, skipping failures. */
    constructor (loaded: State, network: u32, ones: nat, manualApproval: bool, ghost before: C.Sys)
      requires IsSubnet(network, ones) && ones <= 30
      requires C.Inv(before) && before.disk == loaded.nodes
      ensures Valid() && fresh(store) && fresh(pool) && fresh(store.nodes) && fresh(store.keys)
      ensures Sys() == C.Next(before, C.Restart(FirstHost(network), HostCount(ones)))
    {
      var s := new Store(loaded);
      var p := new AddressPool(network, ones);
      ReserveLoaded(s, p);
      store, pool, this.manualApproval, issued := s, p, manualApproval, before.issued;
      C.RestartKeepsInv(before, FirstHost(network), HostCount(ones));
    }

    static method ReserveLoaded(s: Store, p: AddressPool)
      requires s.Valid() && p.Valid()
      modifies p
      ensures p.Valid() && p.View() == C.ReservedAll(old(p.View()), s.nodes[..s.nodeCount])
    {
      ghost var ns := s.nodes[..s.nodeCount];
      for i := 0 to s.nodeCount
        invariant p.Valid() && p.View() == C.ReservedAll(old(p.View()), ns[..i])
      {
        assert ns[..i + 1][..i] == ns[..i];
        var _ := p.Reserve(s.nodes[i].id, s.nodes[i].virtualIP);
      }
      assert ns[..|ns|] == ns;
    }

    /** A registration that passed the syntactic checks; freshID is the id generateID draws for a new node. */
    method HandleRegister(req: Request, freshID: NodeID, now: int, writeOk: bool, markOk: bool) returns (r: Response)
      requires Valid() && freshID !in issued
      modifies this`issued, store, store.nodes, store.keys, store.subscribers, pool
      ensures Valid()
      ensures r.Unauthorized? <==> Refused(old(store.keys[..store.keyCount]), req.authKey, now)
      ensures r.Unauthorized? || r.PoolExhausted? ==> Sys() == old(Sys())
      ensures r.PoolExhausted? ==> old(TakenBelow(pool.View(), pool.size))
      ensures r.StoreError? ==> !writeOk && store.disk == old(store.disk)
      ensures r.Registered? || r.StoreError? ==>
        exists i: nat :: FirstOfSecret(old(store.keys[..store.keyCount]), i, req.authKey) &&
          Admitted(old(store.nodes[..store.nodeCount]), store.nodes[..store.nodeCount], req,
                   old(store.keys[..store.keyCount])[i].id, freshID, now, manualApproval, r)
      ensures KeysAfter(old(store.keys[..store.keyCount]), store.keys[..store.keyCount], req.authKey, now,
                        r.Registered? && Unknown(old(store.nodes[..store.nodeCount]), req.publicKey))
    {
      var ok, ak := CheckKey(req.authKey, now);
      if !ok { return Unauthorized; }
      ghost var keys := store.keys[..store.keyCount];
      ghost var i: nat :| FirstOfSecret(keys, i, req.authKey) && keys[i] == ak;
      var known, existing := store.GetNodeByPubKey(req.publicKey);
      if known {
        ghost var before := store.nodes[..store.nodeCount];
        r := UpdateExisting(existing, req, now, writeOk);
        RefreshedStands(before, existing, req, ak.id, freshID, now, manualApproval, r);
      } else {
        r := AdmitNew(req, ak, freshID, now, writeOk, markOk);
        assert r.Registered? ==> SpendsKey(keys, store.keys[..store.keyCount], i, req.authKey, now);
      }
    }

    /** GetAuthKey and ValidateAuthKey. */
    method CheckKey(secret: string, now: int) returns (ok: bool, ak: AuthKey)
      requires Valid()
      ensures ok <==> !Refused(store.keys[..store.keyCount], secret, now)
      ensures ok ==> exists i: nat :: FirstOfSecret(store.keys[..store.keyCount], i, secret) && store.keys[i] == ak
    {
      RefusedIff(store.keys[..store.keyCount], secret, now);
      ok, ak := false, NO_KEY;
      var k := store.FindKey(HasSecret(secret));
      if k < store.keyCount { ok, ak := ValidKey(store.keys[k], now), store.keys[k]; }
    }

    /** A first registration: the node enters the store, then an ephemeral key is marked. */
    method AdmitNew(req: Request, ak: AuthKey, freshID: NodeID, now: int, writeOk: bool, markOk: bool) returns (r: Response)
      requires Valid() && freshID !in issued && Unknown(store.nodes[..store.nodeCount], req.publicKey)
      modifies this`issued, store, store.nodes, store.keys, store.subscribers, pool
      ensures Valid() && !r.Unauthorized?
      ensures r.PoolExhausted? ==> old(TakenBelow(pool.View(), pool.size)) && Sys() == old(Sys())
      ensures r.StoreError? ==> !writeOk && store.disk == old(store.disk)
      ensures !r.PoolExhausted? ==>
        Admitted(old(store.nodes[..store.nodeCount]), store.nodes[..store.nodeCount], req, ak.id, freshID, now,
                 manualApproval, r)
      ensures if r.Registered? && ak.ephemeral
              then MarksUsed(old(store.keys[..store.keyCount]), store.keys[..store.keyCount], ak.id, now)
              else store.keys[..store.keyCount] == old(store.keys[..store.keyCount])
    {
      ghost var before := store.nodes[..store.nodeCount];
      ghost var node: Node;
      r, node := RegisterNew(req, ak.id, freshID, now, writeOk);
      if !r.PoolExhausted? { NewStands(before, req, ak.id, freshID, node.virtualIP, manualApproval, now, r); }
      if r.Registered? && ak.ephemeral { var _ := store.MarkAuthKeyUsed(ak.id, now, markOk); }
    }

    /** Re-registration: the stored node keeps its id, address and status. */
    method UpdateExisting(existing: Node, req: Request, now: int, writeOk: bool) returns (r: Response)
      requires Valid() && existing in store.nodes[..store.nodeCount]
      modifies store, store.nodes, store.subscribers
      ensures Valid() && store.nodes == old(store.nodes) && store.keys[..store.keyCount] == old(store.keys[..store.keyCount])
      ensures var n := Refreshed(existing, req, now);
              C.Enabled(old(Sys()), C.UpdateNode(n, writeOk)) &&
              Sys() == C.Next(old(Sys()), C.UpdateNode(n, writeOk)) &&
              store.nodes[..store.nodeCount] == WithNode(old(store.nodes[..store.nodeCount]), n)
      ensures r == if writeOk then Registered(existing.id, existing.virtualIP, existing.hostname) else StoreError
      ensures !writeOk ==> store.disk == old(store.disk)
    {
      ghost var before, ns := Sys(), store.nodes[..store.nodeCount];
      OnlyOneWithId(ns, existing);
      var ok := store.UpdateNode(existing.id, (n: Node) => Refreshed(n, req, now), now, writeOk);
      ghost var n := Refreshed(existing, req, now);
      assert store.nodes[..store.nodeCount] == WithNode(ns, n);
      C.AddKeepsInv(before, C.UpdateNode(n, writeOk));
      r := if ok then Registered(existing.id, existing.virtualIP, existing.hostname) else StoreError;
    }

    /** The administrator approves a node: it becomes active and keeps everything else. A failed save is reported
        as an unknown node, with the change kept in memory. */
    method HandleApprove(id: string, now: int, writeOk: bool) returns (r: AdminResponse)
      requires Valid()
      modifies store, store.nodes, store.subscribers
      ensures Valid()
      ensures r.InvalidID? <==> !IsValidID(id)
      ensures var ns := old(store.nodes[..store.nodeCount]);
              var i := IndexOf(ns, id);
              if IsValidID(id) && i < |ns| then
                r == (if writeOk then Done else NotFound) &&
                C.Enabled(old(Sys()), C.UpdateNode(ns[i].(status := Online), writeOk)) &&
                Sys() == C.Next(old(Sys()), C.UpdateNode(ns[i].(status := Online), writeOk))
              else r != Done && Sys() == old(Sys())
    {
      var valid := CheckID(id);
      if !valid { return InvalidID; }
      ghost var before, ns := Sys(), store.nodes[..store.nodeCount];
      ghost var i := IndexOf(ns, id);
      if i < |ns| { C.AddKeepsInv(before, C.UpdateNode(ns[i].(status := Online), writeOk)); }
      var ok := store.UpdateNode(id, (n: Node) => n.(status := Online), now, writeOk);
      r := if ok then Done else NotFound;
    }

    /** The administrator deletes a node; its address stays with the pool. */
    method HandleDelete(id: string, now: int, writeOk: bool) returns (r: AdminResponse)
      requires Valid()
      modifies store, store.nodes, store.subscribers
      ensures Valid() && pool.View() == old(pool.View())
      ensures r.InvalidID? <==> !IsValidID(id)
      ensures var ns := old(store.nodes[..store.nodeCount]);
              if IsValidID(id) && IndexOf(ns, id) < |ns| then
                r == (if writeOk then Done else NotFound) && Sys() == C.Next(old(Sys()), C.DeleteNode(id, writeOk))
              else r != Done && Sys() == old(Sys())
    {
      var valid := CheckID(id);
      if !valid { return InvalidID; }
      C.AddKeepsInv(Sys(), C.DeleteNode(id, writeOk));
      var ok := store.DeleteNode(id, now, writeOk);
      r := if ok then Done else NotFound;
    }

    /** A new node: the pool gives an address, then the node enters the store, even when the save fails. */
    method RegisterNew(req: Request, keyID: string, freshID: NodeID, now: int, writeOk: bool)
      returns (r: Response, ghost node: Node)
      requires Valid() && freshID !in issued
      modifies this`issued, store, store.nodes, store.subscribers, pool
      ensures Valid() && store.keys == old(store.keys) && store.keys[..store.keyCount] == old(store.keys[..store.keyCount])
      ensures !r.Unauthorized?
      ensures r.PoolExhausted? ==> old(TakenBelow(pool.View(), pool.size)) && Sys() == old(Sys())
      ensures !r.PoolExhausted? ==>
        Registers(old(Sys()), node, writeOk, Sys()) &&
        store.nodes[..store.nodeCount] == WithNode(old(store.nodes[..store.nodeCount]), node) &&
        node == NewNode(req, keyID, freshID, node.virtualIP, manualApproval, now) &&
        r == if writeOk then Registered(node.id, node.virtualIP, node.hostname) else StoreError
      ensures !writeOk ==> store.disk == old(store.disk)
    {
      ghost var before := Sys();
      node := NO_NODE;
      var vip := pool.Allocate(freshID);
      if vip.Exhausted? { return PoolExhausted, node; }
      issued := issued + {freshID};
      var n := NewNode(req, keyID, freshID, vip.ip, manualApproval, now);
      RegistrationSteps(before, n, writeOk);
      var added := store.AddNode(n, now, writeOk);
      r, node := if added then Registered(freshID, vip.ip, n.hostname) else StoreError, n;
    }
  }

  /** What a registration makes of a stored node of that key. */
  function Refreshed(n: Node, req: Request, now: int): Node {
    n.(hostname := if req.hostname != "" then req.hostname else n.hostname,
       routes := req.routes, isExitNode := req.isExitNode, lastSeen := At(now))
  }

  function NewNode(req: Request, keyID: string, id: NodeID, ip: u32, manualApproval: bool, now: int): Node {
    Node(id, req.publicKey, if req.hostname == "" then "node-" + Prefix(id, 8) else req.hostname, ip,
         if manualApproval then Pending else Online, At(now), req.routes, req.isExitNode, keyID, At(now))
  }

  /** The node is the requester's, with what it asked for. */
  predicate Serves(n: Node, req: Request) {
    n.publicKey == req.publicKey && n.routes == req.routes && n.isExitNode == req.isExitNode &&
    (req.hostname != "" ==> n.hostname == req.hostname)
  }

  /** No stored node has this public key. */
  ghost predicate Unknown(ns: seq<Node>, pubKey: string) {
    forall i | 0 <= i < |ns| :: ns[i].publicKey != pubKey
  }

  /** One node was put in, is what was asked for, and is answered. */
  ghost predicate Admitted(before: seq<Node>, after: seq<Node>, req: Request, keyID: string, freshID: NodeID, now: int,
                           manual: bool, r: Response) {
    exists n :: after == WithNode(before, n) && Serves(n, req) && n.lastSeen == At(now) &&
                (r.Registered? ==> r.nodeID == n.id && r.virtualIP == n.virtualIP) &&
                if Unknown(before, req.publicKey) then IsNew(n, req, keyID, freshID, now, manual)
                else forall i: nat | FirstOfKey(before, i, req.publicKey) :: Continues(n, before[i], req)
  }

  /** A node that was unknown waits for approval exactly if approval is manual. */
  predicate IsNew(n: Node, req: Request, keyID: string, freshID: NodeID, now: int, manual: bool) {
    n.id == freshID && n.authKeyID == keyID && n.registeredAt == At(now) &&
    (n.status.Pending? <==> manual) && (n.status.Online? <==> !manual) &&
    (req.hostname == "" && |freshID| >= 8 ==> n.hostname == "node-" + freshID[..8])
  }

  /** A known one keeps its standing. */
  predicate Continues(n: Node, was: Node, req: Request) {
    n.id == was.id && n.virtualIP == was.virtualIP && n.status == was.status && n.authKeyID == was.authKeyID &&
    n.registeredAt == was.registeredAt && (req.hostname == "" ==> n.hostname == was.hostname)
  }

  /** Keys change only by a first registration with an ephemeral one: that is marked as used. */
  ghost predicate KeysAfter(before: seq<AuthKey>, after: seq<AuthKey>, secret: string, now: int, admitted: bool) {
    if admitted then exists i: nat :: SpendsKey(before, after, i, secret, now) else after == before
  }

  ghost predicate SpendsKey(before: seq<AuthKey>, after: seq<AuthKey>, i: nat, secret: string, now: int) {
    FirstOfSecret(before, i, secret) &&
    if before[i].ephemeral then MarksUsed(before, after, before[i].id, now) else after == before
  }

  lemma NewStands(before: seq<Node>, req: Request, keyID: string, id: NodeID, ip: u32, manual: bool, now: int, r: Response)
    requires Unknown(before, req.publicKey) && (r.Registered? ==> r.nodeID == id && r.virtualIP == ip)
    ensures Admitted(before, WithNode(before, NewNode(req, keyID, id, ip, manual, now)), req, keyID, id, now, manual, r)
  {
    var n := NewNode(req, keyID, id, ip, manual, now);
    assert IsNew(n, req, keyID, id, now, manual);
  }

  lemma RefreshedStands(before: seq<Node>, was: Node, req: Request, keyID: string, freshID: NodeID, now: int, manual: bool,
                         r: Response)
    requires exists i: nat :: FirstOfKey(before, i, req.publicKey) && before[i] == was
    requires r.Registered? ==> r.nodeID == was.id && r.virtualIP == was.virtualIP
    ensures Admitted(before, WithNode(before, Refreshed(was, req, now)), req, keyID, freshID, now, manual, r)
  {
    var n := Refreshed(was, req, now);
    assert Continues(n, was, req) && Serves(n, req);
    var i: nat :| FirstOfKey(before, i, req.publicKey) && before[i] == was;
    assert forall j: nat | FirstOfKey(before, j, req.publicKey) :: j == i;
  }

  predicate IsIDChar(c: char) {
    '0' <= c <= '9' || 'a' <= c <= 'z' || 'A' <= c <= 'Z' || c == '-'
  }

  predicate IsValidID(id: string) {
    id != "" && forall c | c in id :: IsIDChar(c)
  }

  /** The ids that generateID draws, hexadecimal text, are valid, and no id with a separator of a path is. */
  lemma DrawnIDsAreValid(id: string)
    ensures id != "" && (forall c | c in id :: '0' <= c <= '9' || 'a' <= c <= 'f') ==> IsValidID(id)
    ensures id == "" || '/' in id || '.' in id || '%' in id || '?' in id ==> !IsValidID(id)
  {
    if '/' in id { assert !IsIDChar('/'); }
    if '.' in id { assert !IsIDChar('.'); }
    if '%' in id { assert !IsIDChar('%'); }
    if '?' in id { assert !IsIDChar('?'); }
  }

  method CheckID(id: string) returns (ok: bool)
    ensures ok <==> IsValidID(id)
  {
    if id == "" { return false; }
    for i := 0 to |id|
      invariant forall j | 0 <= j < i :: IsIDChar(id[j])
    {
      var c := id[i];
      if !(('0' <= c <= '9') || ('a' <= c <= 'z') || ('A' <= c <= 'Z') || c == '-') {
        assert !IsIDChar(id[i]);
        return false;
      }
    }
    return true;
  }

  /** after is what Allocate and then AddNode of the coordinator's step model make of before. */
  ghost predicate Registers(before: C.Sys, n: Node, writeOk: bool, after: C.Sys) {
    C.Enabled(before, C.Allocate(n.id, n.virtualIP)) &&
    var holding := C.Next(before, C.Allocate(n.id, n.virtualIP));
    C.Enabled(holding, C.AddNode(n, writeOk)) && after == C.Next(holding, C.AddNode(n, writeOk))
  }

  lemma RegistrationSteps(before: C.Sys, n: Node, writeOk: bool)
    requires C.Inv(before) && n.id !in before.issued && n.virtualIP !in before.pool.used && before.inflight == map[]
    ensures var nodes := before.nodes + [n];
            var after := C.Sys(nodes, if writeOk then nodes else before.disk, Bound(before.pool, n.id, n.virtualIP),
                               map[], before.issued + {n.id});
            WithNode(before.nodes, n) == nodes && Registers(before, n, writeOk, after) && C.Inv(after)
  {
    var holding := C.Next(before, C.Allocate(n.id, n.virtualIP));
    C.AllocateKeepsInv(before, C.Allocate(n.id, n.virtualIP));
    C.AddKeepsInv(holding, C.AddNode(n, writeOk));
    assert holding.inflight - {n.id} == map[];
  }

  lemma OnlyOneWithId(ns: seq<Node>, n: Node)
    requires DistinctIds(ns) && n in ns
    ensures IndexOf(ns, n.id) < |ns| && ns[IndexOf(ns, n.id)] == n
  {
    var j :| 0 <= j < |ns| && ns[j] == n;
  }

  function Prefix(s: string, n: nat): string {
    if |s| < n then s else s[..n]
  }
}
