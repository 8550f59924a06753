/** A mesh peer: its lifecycle state and what the topology says of it. */
module Peers {
  import opened Options
  import opened Words

  datatype PeerState = Discovered | Connecting | Direct | Relayed | Idle | Expired

  /** Seconds without traffic before a connected peer is idle, and before it is expired. */
  const IDLE := 300
  const EXPIRED := 600

  type Key = string
  type Address = u32

  type PrefixLength = n: int | 0 <= n <= 32

  datatype Prefix = Prefix(base: u32, bits: PrefixLength)

  datatype Peer = Peer(
    key: Key, hostname: string, nodeID: string, vip: Address,
    endpoint: Option<string>, routes: seq<Prefix>, state: PeerState, lastSeen: int)

  predicate IsExpired(p: Peer, now: int) {
    p.state == Expired || now - p.lastSeen > EXPIRED
  }

  function IdleChecked(p: Peer, now: int): Peer {
    var silent := now - p.lastSeen;
    var first := if (p.state == Direct || p.state == Relayed) && silent > IDLE then Idle else p.state;
    p.(state := if first == Idle && silent > EXPIRED then Expired else first)
  }

  /** One check settles a peer: a second at the same time changes nothing, and no check decides whether a peer is
      expired. A connected peer is idle after five minutes of silence and expired after ten; no other state changes. */
  lemma IdleCheckSettles(p: Peer, now: int)
    ensures var q, silent := IdleChecked(p, now), now - p.lastSeen;
            IdleChecked(q, now) == q && (IsExpired(q, now) <==> IsExpired(p, now)) && q == p.(state := q.state) &&
            (IsExpired(p, now) <==> p.state == Expired || silent > 600) &&
            match p.state
            case Direct => q.state == (if silent <= 300 then Direct else if silent <= 600 then Idle else Expired)
            case Relayed => q.state == (if silent <= 300 then Relayed else if silent <= 600 then Idle else Expired)
            case Idle => q.state == (if silent <= 600 then Idle else Expired)
            case _ => q.state == p.state
  {
  }

  class PeerRecord {
    const key: Key
    const vip: Address
    const nodeID: string
    var hostname: string
    var endpoint: Option<string>
    var routes: seq<Prefix>
    var state: PeerState
    var lastSeen: int

    function View(): Peer
      reads this
    {
      Peer(key, hostname, nodeID, vip, endpoint, routes, state, lastSeen)
    }

    constructor (key: Key, hostname: string, nodeID: string, vip: Address, now: int)
      ensures View() == Peer(key, hostname, nodeID, vip, None, [], Discovered, now)
    {
      this.key, this.hostname, this.nodeID, this.vip := key, hostname, nodeID, vip;
      endpoint, routes, state, lastSeen := None, [], Discovered, now;
    }

    method Transition(newState: PeerState)
      modifies this
      ensures View() == old(View()).(state := newState)
    {
      state := newState;
    }

    method Touch(now: int)
      modifies this
      ensures View() == old(View()).(lastSeen := now, state := if old(state) == Idle then Direct else old(state))
    {
      lastSeen := now;
      if state == Idle { state := Direct; }
    }

    method IdleCheck(now: int)
      modifies this
      ensures View() == IdleChecked(old(View()), now)
    {
      if (state == Direct || state == Relayed) && now - lastSeen > IDLE { state := Idle; }
      if state == Idle && now - lastSeen > EXPIRED { state := Expired; }
    }
  }
}
