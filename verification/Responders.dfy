/** Packets that a responder seals: which of them open at the initiator. */
module Responders {
  import opened Words
  import opened Crypto
  import opened Replay
  import opened Sessions
  import opened NodeEngine
  import opened Tunnel
  import opened Nonces

  /** The offer with this id was completed with this answer of the peer. */
  ghost predicate CompletedWith(n: Node, id: u32, answer: u32) {
    id in n.channels && n.channels[id].receiverID == answer
  }

  /** The packet passes the check at n and opens to what the peer sealed on its session via. */
  ghost predicate OpensAt(n: Node, peer: Node, d: DataPacket, via: u32) {
    d.receiver in n.channels && (via, d.counter) in peer.sent &&
    Unsealed(n.channels[d.receiver].ch, d.counter, d.box) == Ok(Payload(peer.sent[(via, d.counter)]))
  }

  /** A sealed box opens under a session's key exactly if its sender's key is that one and the window lets it pass. */
  lemma BoxOpensIff(n: Node, peer: Node, d: DataPacket, via: u32)
    requires IsSealed(peer.channels, peer.sent, d, via) && d.receiver in n.channels
    ensures OpensAt(n, peer, d, via) <==>
            n.channels[d.receiver].ch.recvKey == peer.channels[via].ch.sendKey &&
            Accepts(n.channels[d.receiver].ch.window, d.counter)
  {
  }

  lemma SentHere(inbox: set<Packet>, peer: Node, d: DataPacket, via: u32)
    requires InboxInv(inbox, peer) && Data(d, via) in inbox
    ensures IsSealed(peer.channels, peer.sent, d, via)
  {
  }

  /** The session that receives at an initiator has the key of the one answer it completed with. */
  lemma ReceivingKey(w: World, s: Side, id: u32)
    requires Holds(w) && id in w.At(s).channels && id in w.At(s).offers
    ensures var a := w.At(s).channels[id].receiverID;
            a in w.At(Other(s)).channels && w.At(s).channels[id].ch.recvKey == w.At(Other(s)).channels[a].ch.sendKey
  {
    HoldsNames(w, s);
    assert Mirrored(w.At(s).channels, id, w.At(Other(s)).channels);
  }

  /** A responder names the offer that it answered. */
  lemma AnswerNamesOffer(n: Node, peer: Node, id: u32)
    requires ChannelsInv(n, peer) && AnswersSound(n.kp, n.answers, peer.offers)
    requires id in n.channels && id in n.answers
    ensures n.channels[id].receiverID in peer.offers
  {
    assert SoundAnswer(n.kp, n.answers, peer.offers, id);
  }

  /** The other direction, exactly: a packet that a responder sealed opens at the initiator, to the bytes sealed, if and
      only if the initiator completed its offer with that very answer and the window lets the counter through. A
      repeated first message makes several answers to one offer; what is sealed under the others never opens. */
  lemma ResponderPacketsOpenIff(keyA: nat, keyB: nat, steps: seq<(Side, Event)>, w: World, s: Side,
                                d: DataPacket, via: u32)
    requires Reaches(Start(keyA, keyB), steps, w) && FreshEphemerals(w)
    requires Data(d, via) in w.Inbox(s) && via in w.At(Other(s)).answers
    ensures OpensAt(w.At(s), w.At(Other(s)), d, via) <==>
            CompletedWith(w.At(s), d.receiver, via) &&
            Accepts(w.At(s).channels[d.receiver].ch.window, d.counter)
  {
    StartHolds(keyA, keyB);
    ReachesHolds(Start(keyA, keyB), steps, w);
    ResponderBoxes(w, s, d, via);
  }

  lemma ResponderBoxes(w: World, s: Side, d: DataPacket, via: u32)
    requires Holds(w) && FreshEphemerals(w) && Data(d, via) in w.Inbox(s) && via in w.At(Other(s)).answers
    ensures OpensAt(w.At(s), w.At(Other(s)), d, via) <==>
            CompletedWith(w.At(s), d.receiver, via) &&
            Accepts(w.At(s).channels[d.receiver].ch.window, d.counter)
  {
    var n, o := w.At(s), Other(s);
    HoldsNames(w, s);
    HoldsNames(w, o);
    InboxHolds(w, s);
    SentHere(w.Inbox(s), w.At(o), d, via);
    AnswerNamesOffer(w.At(o), n, via);
    if d.receiver in n.channels {
      BoxOpensIff(n, w.At(o), d, via);
      ReceivingKey(w, s, d.receiver);
      var a := n.channels[d.receiver].receiverID;
      if w.At(o).channels[a].ch.sendKey == w.At(o).channels[via].ch.sendKey { SameSideSameKey(w, o, a, via); }
    }
  }

  lemma InboxHolds(w: World, s: Side)
    requires Holds(w)
    ensures InboxInv(w.Inbox(s), w.At(Other(s)))
  {
  }

  lemma SameSideSameKey(w: World, s: Side, i: u32, j: u32)
    requires Holds(w) && FreshEphemerals(w) && i in w.At(s).channels && j in w.At(s).channels
    requires w.At(s).channels[i].ch.sendKey == w.At(s).channels[j].ch.sendKey
    ensures i == j
  {
    SessionKeyFits(w, s, i);
    SessionKeyFits(w, s, j);
    forall x: Side ensures w.At(x).offers.Keys !! w.At(x).answers.Keys { HoldsNames(w, x); }
    KeyDeterminesSession(w, s, i, s, j);
  }
}
