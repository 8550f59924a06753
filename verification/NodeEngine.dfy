/** A node engine: the handlers of one node run over its tables and its session objects. */
module NodeEngine {
  import opened Options
  import opened Words
  import opened Crypto
  import opened EngineTables
  import opened Sessions
  import Noise
  import Replay

  datatype InitPacket = InitPacket(sender: u32, m1: Noise.Msg1)
  datatype RespPacket = RespPacket(sender: u32, receiver: u32, m2: Noise.Msg2)
  datatype DataPacket = DataPacket(receiver: u32, counter: u64, box: Term)

  type NodeTables = Tables<Session, Noise.HandshakeState>

  /** The tables after a response that did not verify: its pending entry is spent. */
  ghost predicate Spent(before: NodeTables, id: u32, after: NodeTables) {
    var taken := Step(before, TakePending(id));
    Enabled<Session, Noise.HandshakeState>(taken, Abandon(id)) && after == Step(taken, Abandon(id))
  }

  /** The tables after one that did: the entry has become the session ps with its peer. */
  ghost predicate Answered(before: NodeTables, id: u32, ps: PeerSession<Session>, after: NodeTables) {
    id in before.pending &&
    var taken, build := Step(before, TakePending(id)), BuildSession(before.pending[id].peer, ps);
    Enabled<Session, Noise.HandshakeState>(taken, build) && after == Step(taken, build)
  }

  /** The tables after a first message was answered under a new id. */
  ghost predicate Responded(before: NodeTables, remote: Term, ps: PeerSession<Session>, after: NodeTables) {
    Enabled<Session, Noise.HandshakeState>(before, DrawID) &&
    var drawn, build := Step(before, DrawID), BuildSession(remote, ps);
    Enabled<Session, Noise.HandshakeState>(drawn, build) && after == Step(drawn, build)
  }

  /** The session is in order, is known by these ids, has the keys of the finished handshake, and was made then. */
  ghost predicate Speaks(ps: PeerSession<Session>, receiverID: u32, localID: u32, r: Noise.State, made: int)
    reads ps.session, ps.session.replayWin, ps.session.replayWin.bitmap
  {
    ps.session.Valid() && ps == PeerSession(ps.session, receiverID, localID) && Noise.TransportKeys(r).Ok? &&
    ps.session.createdAt == made &&
    ps.session.View() == NewChannel(Noise.TransportKeys(r).value.0, Noise.TransportKeys(r).value.1)
  }

  class Engine {
    const kp: nat
    var sessions: map<Term, PeerSession<Session>>
    var byID: map<u32, PeerSession<Session>>
    var pending: map<u32, Pending<Noise.HandshakeState>>
    var idCounter: u32
    ghost var drafts: set<u32>

    ghost function View(): NodeTables
      reads this
    {
      Tables(idCounter, sessions, byID, pending, drafts)
    }

    ghost predicate Valid()
      reads this, set id | id in pending :: pending[id].hs
    {
      Inv(View()) && Awaiting()
    }

    /** Every pending handshake has sent its first message, and is an object of its own. */
    ghost predicate Awaiting()
      reads this, set id | id in pending :: pending[id].hs
    {
      && (forall id | id in pending :: Awaits(pending[id].hs))
      && (forall i, j | i in pending && j in pending && pending[i].hs == pending[j].hs :: i == j)
    }

    ghost predicate Awaits(hs: Noise.HandshakeState)
      reads hs
    {
      hs.isInitiator && hs.nMsg == 1 && hs.remoteStatic.Public?
    }

    /** Every session that inbound data can reach is in order and shares no object with another. */
    ghost predicate Live()
      reads this, set id | id in byID :: byID[id].session, set id | id in byID :: byID[id].session.replayWin
    {
      && (forall id | id in byID :: byID[id].session.Valid())
      && (forall i, j | i in byID && j in byID && i != j :: byID[i].session.Repr !! byID[j].session.Repr)
    }

    constructor (kp: nat)
      ensures Valid() && View() == NoTables()
    {
      this.kp := kp;
      sessions, byID, pending, idCounter, drafts := map[], map[], map[], 0, {};
    }

    method NextID() returns (id: u32)
      requires Valid() && Enabled(View(), DrawID)
      modifies this
      ensures Valid() && View() == Step(old(View()), DrawID) && id == idCounter
    {
      StepKeepsInv(View(), DrawID);
      idCounter := idCounter + 1;
      id := idCounter;
      drafts := drafts + {id};
    }

    /** Starts a handshake, unless one with this peer is pending. */
    method InitiateHandshake(peer: Term, ephemeral: nat, now: int) returns (wire: Option<InitPacket>)
      requires Valid() && Enabled(View(), DrawID)
      modifies this
      ensures Valid() && drafts == old(drafts)
      ensures old(Live()) ==> Live()
      ensures wire.None? <==>
        (exists id :: id in old(pending) && old(pending[id].peer) == peer) || !peer.Public?
      ensures wire.None? ==> View() == old(View())
      ensures wire.Some? ==>
        var id := wire.value.sender;
        id == old(idCounter) + 1 && id in pending && fresh(pending[id].hs) &&
        pending[id] == Pending(peer, pending[id].hs, id, now) &&
        View() == Step(Step(old(View()), DrawID), InsertPending(pending[id])) &&
        Noise.Sent1(pending[id].hs.View(), kp, peer, ephemeral, wire.value.m1)
    {
      var waiting := IsPending(peer);
      if waiting { return None; }
      var hs := new Noise.HandshakeState(true, kp, peer, ephemeral);
      var msg1 := hs.WriteMessage1();
      if msg1.Err? { return None; }
      var localID := NextID();
      InsertEntry(Pending(peer, hs, localID, now));
      assert drafts == old(drafts);
      return Some(InitPacket(localID, msg1.value));
    }

    method IsPending(peer: Term) returns (found: bool)
      ensures found <==> exists id :: id in pending && pending[id].peer == peer
    {
      var ids := pending.Keys;
      while ids != {}
        invariant ids <= pending.Keys
        invariant forall id | id in pending && id !in ids :: pending[id].peer != peer
        decreases ids
      {
        var id :| id in ids;
        if pending[id].peer == peer { return true; }
        ids := ids - {id};
      }
      return false;
    }

    method InsertEntry(p: Pending<Noise.HandshakeState>)
      requires Valid() && p.localID in drafts && Awaits(p.hs) && forall id | id in pending :: pending[id].hs != p.hs
      modifies this`pending, this`drafts
      ensures Valid() && View() == Step(old(View()), InsertPending(p)) && p.localID in pending
      ensures drafts == old(drafts) - {p.localID}
      ensures old(Live()) ==> Live()
    {
      StepKeepsInv(View(), InsertPending(p));
      pending := pending[p.localID := p];
      drafts := drafts - {p.localID};
    }

    /** Responder side: answers a readable first message and keeps the session before the answer leaves. */
    method HandleHandshakeInit(init: InitPacket, ephemeral: nat, now: int) returns (wire: Option<RespPacket>)
      requires Valid() && Enabled(View(), DrawID)
      modifies this
      ensures Valid() && drafts == old(drafts)
      ensures old(Live()) ==> Live()
      ensures wire.Some? <==> Noise.Read1(Noise.Responder(kp, ephemeral), init.m1).1
      ensures wire.None? ==> View() == old(View())
      ensures wire.Some? ==>
        var id := wire.value.sender;
        var (r, m2) := Noise.Write2(Noise.Read1(Noise.Responder(kp, ephemeral), init.m1).0);
        id == old(idCounter) + 1 && id in byID && Responded(old(View()), r.remoteStatic, byID[id], View()) &&
        fresh(byID[id].session.Repr) && Speaks(byID[id], init.sender, id, r, now) &&
        Ok(wire.value.m2) == m2 && wire.value.receiver == init.sender
    {
      var ok, remote, keys, m2, r := RunResponder(init.m1, ephemeral);
      if !ok { return None; }
      var localID := KeepAnswered(remote, keys, init.sender, now, r);
      return Some(RespPacket(localID, init.sender, m2));
    }

    method KeepAnswered(remote: Term, keys: (Term, Term), receiverID: u32, now: int, ghost r: Noise.State)
      returns (id: u32)
      requires Valid() && Enabled(View(), DrawID) && Noise.TransportKeys(r) == Ok(keys)
      modifies this
      ensures Valid() && drafts == old(drafts) && (old(Live()) ==> Live())
      ensures id == old(idCounter) + 1 && id in byID && fresh(byID[id].session.Repr)
      ensures Responded(old(View()), remote, byID[id], View()) && Speaks(byID[id], receiverID, id, r, now)
    {
      id := NextID();
      Build(remote, keys.0, keys.1, id, receiverID, now);
      assert drafts == old(drafts);
    }

    /** The responder's handshake object from first message to keys; r is how it ends. */
    method RunResponder(m1: Noise.Msg1, ephemeral: nat)
      returns (ok: bool, remote: Term, keys: (Term, Term), m2: Noise.Msg2, ghost r: Noise.State)
      ensures var (s, read) := Noise.Read1(Noise.Responder(kp, ephemeral), m1);
              ok == read && (ok ==> Noise.Write2(s) == (r, Ok(m2)))
      ensures ok ==> remote == r.remoteStatic && Noise.TransportKeys(r) == Ok(keys)
    {
      remote, keys, m2 := Empty, (Empty, Empty), Noise.Short2;
      var hs := new Noise.HandshakeState(false, kp, Empty, ephemeral);
      ok := hs.ReadMessage1(m1);
      r := hs.View();
      if !ok { return; }
      var msg2 := hs.WriteMessage2();
      r := hs.View();
      var pair := hs.Keys();
      remote, keys, m2 := hs.remoteStatic, pair.value, msg2.value;
    }

    /** Initiator side: the pending entry is spent whether or not the answer verifies. */
    method HandleHandshakeResp(resp: RespPacket, now: int) returns (ok: bool)
      requires Valid()
      modifies this, if resp.receiver in pending then {pending[resp.receiver].hs} else {}
      ensures Valid() && drafts == old(drafts)
      ensures old(Live()) ==> Live()
      ensures resp.receiver !in old(pending) ==> !ok && View() == old(View())
      ensures resp.receiver in old(pending) ==>
        (old(pending)[resp.receiver].hs.View(), ok) == Noise.Read2(old(pending[resp.receiver].hs.View()), resp.m2)
      ensures resp.receiver in old(pending) && !ok ==> Spent(old(View()), resp.receiver, View())
      ensures ok ==> resp.receiver in old(pending) && resp.receiver in byID
      ensures ok ==> Answered(old(View()), resp.receiver, byID[resp.receiver], View())
      ensures ok ==> Speaks(byID[resp.receiver], resp.sender, resp.receiver, old(pending)[resp.receiver].hs.View(), now)
    {
      if resp.receiver !in pending { return false; }
      ok := SpendPending(resp, now);
    }

    method SpendPending(resp: RespPacket, now: int) returns (ok: bool)
      requires Valid() && resp.receiver in pending
      modifies this, pending[resp.receiver].hs
      ensures Valid() && drafts == old(drafts)
      ensures old(Live()) ==> Live()
      ensures (old(pending)[resp.receiver].hs.View(), ok) ==
              Noise.Read2(old(pending[resp.receiver].hs.View()), resp.m2)
      ensures if ok then resp.receiver in byID && Answered(old(View()), resp.receiver, byID[resp.receiver], View())
              else Spent(old(View()), resp.receiver, View())
      ensures ok ==> Speaks(byID[resp.receiver], resp.sender, resp.receiver, old(pending)[resp.receiver].hs.View(), now)
    {
      var id := resp.receiver;
      var p := pending[id];
      TakeEntry(id);
      ok := FinishHandshake(p, resp, now);
      assert drafts == old(drafts);
    }

    /** The answer is read outside the tables; its session is kept only if it verifies. */
    method FinishHandshake(p: Pending<Noise.HandshakeState>, resp: RespPacket, now: int) returns (ok: bool)
      requires Valid() && p.localID in drafts && Awaits(p.hs) && forall id | id in pending :: pending[id].hs != p.hs
      modifies this, p.hs
      ensures Valid() && (old(Live()) ==> Live())
      ensures (p.hs.View(), ok) == Noise.Read2(old(p.hs.View()), resp.m2)
      ensures !ok ==> View() == Step(old(View()), Abandon(p.localID))
      ensures ok ==> p.localID in byID && View() == Step(old(View()), BuildSession(p.peer, byID[p.localID])) &&
                     Speaks(byID[p.localID], resp.sender, p.localID, p.hs.View(), now)
    {
      ok := p.hs.ReadMessage2(resp.m2);
      if ok { Complete(p, resp.sender, now); } else { AbandonDraft(p.localID); }
    }

    method TakeEntry(id: u32)
      requires Valid() && id in pending
      modifies this`pending, this`drafts
      ensures Valid() && View() == Step(old(View()), TakePending(id)) && drafts == old(drafts) + {id}
      ensures old(pending)[id].localID == id && Awaits(old(pending)[id].hs)
      ensures forall i | i in pending :: pending[i].hs != old(pending)[id].hs
      ensures old(Live()) ==> Live()
    {
      StepKeepsInv(View(), TakePending(id));
      pending := pending - {id};
      drafts := drafts + {id};
    }

    ghost method AbandonDraft(id: u32)
      requires Valid() && id in drafts
      modifies this`drafts
      ensures Valid() && View() == Step(old(View()), Abandon(id)) && drafts == old(drafts) - {id}
      ensures old(Live()) ==> Live()
    {
      StepKeepsInv(View(), Abandon(id));
      drafts := drafts - {id};
    }

    method Complete(p: Pending<Noise.HandshakeState>, receiverID: u32, now: int)
      requires Valid() && p.localID in drafts && Noise.TransportKeys(p.hs.View()).Ok?
      modifies this
      ensures Valid() && p.localID in byID && byID[p.localID].session.Valid()
      ensures old(Live()) ==> Live()
      ensures byID[p.localID] == PeerSession(byID[p.localID].session, receiverID, p.localID)
      ensures View() == Step(old(View()), BuildSession(p.peer, byID[p.localID]))
      ensures var keys := Noise.TransportKeys(p.hs.View()).value;
              byID[p.localID].session.View() == NewChannel(keys.0, keys.1) && byID[p.localID].session.createdAt == now
    {
      var keys := p.hs.Keys();
      Build(p.peer, keys.value.0, keys.value.1, p.localID, receiverID, now);
    }

    /** Stores a new session in both maps. */
    method Build(remote: Term, sendKey: Term, recvKey: Term, localID: u32, receiverID: u32, now: int)
      requires Valid() && localID in drafts
      modifies this
      ensures Valid() && localID in byID && fresh(byID[localID].session.Repr) && byID[localID].session.Valid()
      ensures old(Live()) ==> Live()
      ensures byID[localID] == PeerSession(byID[localID].session, receiverID, localID)
      ensures View() == Step(old(View()), BuildSession(remote, byID[localID]))
      ensures byID[localID].session.View() == NewChannel(sendKey, recvKey) && byID[localID].session.createdAt == now
    {
      var session := new Session(sendKey, recvKey, now);
      var ps := PeerSession(session, receiverID, localID);
      StepKeepsInv(View(), BuildSession(remote, ps));
      sessions := sessions[remote := ps];
      byID := byID[localID := ps];
      drafts := drafts - {localID};
    }

    /** Seals the packet for the peer's current session, until 150 seconds after that was made. Without a live session
        the packet is dropped, and without any a handshake is to be started. */
    method SendToPeer(peer: Term, packet: seq<int>, now: int) returns (wire: Option<DataPacket>, connect: bool)
      requires Valid() && (peer in sessions ==> sessions[peer].session.Valid())
      modifies if peer in sessions then {sessions[peer].session} else {}
      ensures Valid() && View() == old(View()) && (old(Live()) ==> Live())
      ensures connect == (peer !in sessions)
      ensures wire.Some? <==> peer in sessions && now - old(sessions[peer].session.createdAt) <= 150
      ensures peer in sessions ==> sessions[peer].session.createdAt == old(sessions[peer].session.createdAt)
      ensures wire.Some? ==>
        var ps := sessions[peer];
        var ch := old(sessions[peer].session.View());
        byID[ps.localID] == ps && ps.session.Valid() && ps.session.View() == AfterSeal(ch) &&
        wire.value == DataPacket(ps.receiverID, ch.counter, Ciphertext(ch.sendKey, ch.counter, packet))
    {
      if peer !in sessions || sessions[peer].session.IsExpired(now) { return None, peer !in sessions; }
      var ps := sessions[peer];
      var counter, box := ps.session.Encrypt(packet, now);
      return Some(DataPacket(ps.receiverID, counter, box)), false;
    }

    /** Opens an inbound packet under the session it names; only that session changes. What opens is written to the
        TUN device if the access list allows it, and is lost otherwise. */
    method HandleData(d: DataPacket, now: int, allows: Term -> bool) returns (plain: Result<Term>, written: bool)
      requires Valid() && (d.receiver in byID ==> byID[d.receiver].session.Valid())
      modifies if d.receiver in byID then byID[d.receiver].session.Repr else {}
      ensures d.receiver !in byID ==> plain.Err?
      ensures written == (plain.Ok? && allows(plain.value))
      ensures d.receiver in old(byID) ==>
        var session := old(byID[d.receiver]).session;
        var ch := old(byID[d.receiver].session.View());
        session.Valid() && plain == Unsealed(ch, d.counter, d.box) &&
        session.View() == (if plain.Err? then ch else ch.(window := Replay.Advanced(ch.window, d.counter))) &&
        session.createdAt == old(byID[d.receiver].session.createdAt)
      ensures Valid() && View() == old(View()) && (old(Live()) ==> Live())
    {
      if d.receiver !in byID { return Err, false; }
      plain := byID[d.receiver].session.Decrypt(d.counter, d.box, now);
      written := plain.Ok? && allows(plain.value);
    }

    method RekeyPeer(peer: Term)
      requires Valid()
      modifies this
      ensures Valid() && View() == Step(old(View()), Rekey(peer))
      ensures old(Live()) ==> Live()
    {
      StepKeepsInv(View(), Rekey(peer));
      if peer in sessions { byID := byID - {sessions[peer].localID}; }
      sessions := sessions - {peer};
    }

    /** One tick of the timeout loop. */
    method ExpirePending(now: int)
      requires Valid()
      modifies this`pending
      ensures Valid() && View() == Step(old(View()), Expire(now))
      ensures forall id :: id in pending <==> id in old(pending) && now - old(pending)[id].sentAt <= 5
      ensures old(Live()) ==> Live()
    {
      StepKeepsInv(View(), Expire(now));
      DropExpired(now);
      assert pending == Unexpired(old(pending), now);
    }

    method DropExpired(now: int)
      modifies this`pending
      ensures forall id :: id in pending <==> id in old(pending) && now - old(pending)[id].sentAt <= HANDSHAKE_TIMEOUT
      ensures forall id | id in pending :: pending[id] == old(pending)[id]
    {
      var ids := pending.Keys;
      while ids != {}
        invariant ids <= pending.Keys <= old(pending).Keys
        invariant forall id | id in pending :: pending[id] == old(pending)[id]
        invariant forall id | id in old(pending) && id !in ids ::
          id in pending <==> now - old(pending)[id].sentAt <= HANDSHAKE_TIMEOUT
        decreases ids
      {
        var id :| id in ids;
        if now - pending[id].sentAt > HANDSHAKE_TIMEOUT { pending := pending - {id}; }
        ids := ids - {id};
      }
    }
  }
}
