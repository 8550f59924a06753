/** The relay's lock-held regions over queues that change in place. */
module RelayServer {
  import opened Words
  import opened Relay

  class Client {
    const pubKey: Key
    var queue: seq<Frames.Frame>
    var closed: bool

    constructor (pubKey: Key)
      ensures this.pubKey == pubKey && queue == [] && !closed
    {
      this.pubKey, queue, closed := pubKey, [], false;
    }

    /** Queues the frame, or drops it when the queue is full. */
    method Enqueue(f: Frames.Frame)
      requires !closed
      modifies this`queue
      ensures queue == if |old(queue)| < 64 then old(queue) + [f] else old(queue)
    {
      if |queue| < QUEUE_SIZE { queue := queue + [f]; }
    }

    method Close()
      requires !closed
      modifies this`closed
      ensures closed
    {
      closed := true;
    }
  }

  class Server {
    var clients: map<Key, Client>

    /** Every entry is an open queue under its own key. */
    ghost predicate Valid()
      reads this, clients.Values
    {
      forall k | k in clients :: clients[k].pubKey == k && !clients[k].closed
    }

    constructor ()
      ensures Valid() && clients == map[]
    {
      clients := map[];
    }

    method AddClient(sc: Client)
      requires Valid() && !sc.closed && sc !in clients.Values
      modifies this, if sc.pubKey in clients then {clients[sc.pubKey]} else {}
      ensures Valid() && clients == old(clients)[sc.pubKey := sc]
      ensures sc.pubKey in old(clients) ==> old(clients)[sc.pubKey].closed
    {
      if sc.pubKey in clients { clients[sc.pubKey].Close(); }
      clients := clients[sc.pubKey := sc];
    }

    method RemoveClient(pubKey: Key)
      requires Valid()
      modifies this, if pubKey in clients then {clients[pubKey]} else {}
      ensures Valid() && clients == old(clients) - {pubKey}
      ensures pubKey in old(clients) ==> old(clients)[pubKey].closed
    {
      if pubKey in clients && clients[pubKey].pubKey == pubKey {
        var sc := clients[pubKey];
        clients := clients - {pubKey};
        sc.Close();
      }
    }

    method Lookup(dst: Key) returns (target: Client?)
      requires Valid()
      ensures if dst in clients then target == clients[dst] && target.pubKey == dst && !target.closed else target == null
    {
      target := if dst in clients then clients[dst] else null;
    }

    /** A route no other step interrupts queues exactly the packet, stamped with its sender, at its destination. */
    method Route(src: Key, dst: Key, packet: seq<u8>)
      requires Valid()
      modifies if dst in clients then {clients[dst]} else {}
      ensures Valid()
      ensures dst in clients ==>
        var was := old(clients[dst].queue);
        clients[dst].queue == if |was| < 64 then was + [Frames.Frame(3, src + packet)] else was
    {
      var target := Lookup(dst);
      if target == null { return; }
      target.Enqueue(Frames.Frame(Frames.RECV_PACKET, Frames.Addressed(src, packet)));
    }

    /** Everyone else in the table is told; the table is locked throughout, so every queue is open. */
    method BroadcastPresence(pubKey: Key, present: bool)
      requires Valid()
      modifies clients.Values
      ensures Valid()
      ensures pubKey in clients ==> clients[pubKey].queue == old(clients[pubKey].queue)
      ensures forall k | k in clients && k != pubKey ::
        clients[k].queue == old(clients[k].queue) +
          if |old(clients[k].queue)| < 64 then [Frames.Frame(if present then 4 else 5, pubKey)] else []
    {
      var f := Announcement(pubKey, present).frame;
      var todo := clients.Keys;
      while todo != {}
        invariant todo <= clients.Keys && Valid()
        invariant forall k | k in todo :: clients[k].queue == old(clients[k].queue)
        invariant pubKey in clients ==> clients[pubKey].queue == old(clients[pubKey].queue)
        invariant forall k | k in clients.Keys - todo && k != pubKey ::
          clients[k].queue == old(clients[k].queue) + if |old(clients[k].queue)| < 64 then [f] else []
        decreases |todo|
      {
        var k :| k in todo;
        todo := todo - {k};
        if clients[k].pubKey != pubKey { clients[k].Enqueue(f); }
      }
    }
  }
}
